# Port de plaisance — reservation conflict engine, catway directory and user table

A Dafny model of the back office of a marina. The marina rents out numbered berths called
catways. Reservations book a catway for a client's boat from a start date to an end date.
Back-office accounts manage both.

The heart of the model is the decision whether a proposed date range may be stored next to
the reservations already on a catway. The system makes it twice:

- The JSON API (`services/reservations.js`) asks the store for a reservation matching a
  three-clause range query.
- The web forms (`controllers/reservationsController.js`) fetch the catway's reservations
  and scan them with a `hasConflict` flag and a `break`.

The model states both tests. It proves that they agree on forward ranges and differ on
backward ones. It also proves which paths keep the store's invariant: no two reservations on
one catway overlap, and every stored reservation ends after it starts.

How the model is laid out:

- `Results`: the `Option` wrapper and the `Status` each handler reports. HTTP codes, redirect
  messages and re-rendered forms are reduced to these statuses.
- `Text`: the `trim` and `lowercase` setters of the schemas.
- `Ordering`: what a store cursor and `.sort(...)` do.
  - `KeysOf` hands out every key once, in an order the store chooses.
  - `SortBy` is an insertion sort on an integer key.
- `ReservationModel` and `Conflicts`: the reservation document and what `save()` validates.
  `Conflicts` also holds the two conflict tests and the store invariant `Consistent`.
- `ReservationStore`: the reservation collection as a class. It holds a map from identifier
  to reservation, and a counter that hands out fresh identifiers. Its methods are the store
  operations the handlers call.
- `ReservationService` and `ReservationsController`: the API and web handlers.
  - Each state-changing handler is a method.
  - Its postcondition equates the status and the new collection with a ghost function of the
    old collection.
  - Lemmas about that function carry the properties.
- `CatwayModel`, `CatwayService`, `CatwayController`: the catway directory, a class over a
  map keyed by the unique catway number.
- `UserModel`, `UserService`, `UsersController`: the user table, a class over a map keyed by
  the unique email.
  - The email key is normalised: lower-cased and trimmed.
  - The password hash is a fixed function held by the table.
  - Replies are `UserView` values, which have no password field.

Dates are integer instants. The clock reading of "current reservations" is a parameter. The
caller's identity in the web user delete is a parameter too.

Mongoose runs the `lowercase` and `trim` setters on email values placed in a query filter, not
only on stored values. The model follows this: every lookup by email normalises the email
first.

## Model

| member | source | states |
|---|---|---|
| Text.Trim | models/reservation.js:13 | The `trim` setter: the input with its leading and trailing ECMAScript whitespace cut. Its properties are stated by `Text.TrimSpec`. |
| Text.TrimSpec | models/reservation.js:13 | The result is the input with only whitespace cut from the two ends. It neither starts nor ends with whitespace. |
| Text.TrimIdempotent | models/reservation.js:18 | Trimming an already trimmed value changes nothing. |
| Text.TrimKeepsNonWhitespace | models/reservation.js:10-19 | A value holding a non-whitespace character is not empty once trimmed, so `required` accepts it. |
| Text.Lowercase | models/user.js:16 | The `lowercase` setter, applied character by character. Its properties are stated by `Text.LowercaseSpec`. |
| Text.LowercaseSpec | models/user.js:16 | Each upper-case ASCII letter becomes its lower-case letter, 32 code points on. No upper-case ASCII letter is left, and every other character is kept. |
| Text.LowercaseTrimCommute | models/user.js:16-17 | The `lowercase` and `trim` setters give the same email in either order. |
| Ordering.SortBy | services/reservations.js:12 | The result is ordered by the key and is a permutation of the input. |
| Conflicts.Overlaps | controllers/reservationsController.js:79 | The web loop's test: the new range starts on or before the stored end and ends on or after the stored start. |
| Conflicts.FilterMatches | services/reservations.js:86-88 | The API query's three `$or` clauses: the stored range holds the new start, or holds the new end, or lies inside the new range. |
| Conflicts.AnyOverlap | controllers/reservationsController.js:70-83 | Some reservation on the catway, other than the excluded one, meets the loop's test. |
| Conflicts.AnyFilterMatch | services/reservations.js:135-143 | `findOne` on the catway, with `_id: { $ne: id }` when an id is excluded, finds a document matching the `$or`. |
| Conflicts.OverlapsSymmetric | controllers/reservationsController.js:79 | The web overlap test does not depend on which range is the new one. |
| Conflicts.OverlapsImpliesFilter | services/reservations.js:86-88 | For any ranges, a hit of the web loop's test is also a hit of the three-clause query. |
| Conflicts.FilterEquivOverlaps | services/reservations.js:86-88 | When neither range runs backwards, the three-clause query matches exactly when `start <= existingEnd && end >= existingStart`. |
| Conflicts.FilterDiffersOnInvertedRequest | services/reservations.js:86-88 | A backward request (start 15, end 5) against stored [10, 20] matches the query but not the loop's test. |
| Conflicts.FilterDiffersOnInvertedStored | services/reservations.js:86-88 | A backward stored range [6, 3] against request [4, 5] matches the query but not the loop's test. |
| Conflicts.AnyOverlapImpliesFilter | services/reservations.js:83-94 | Over a whole catway, the query finds a conflict whenever the loop would. |
| Conflicts.AnyFilterMatchIffOverlap | services/reservations.js:83-94 | On a store of valid reservations and a forward range, both scans report a conflict in exactly the same cases. |
| Conflicts.InsertKeepsConsistent | services/reservations.js:97-106 | Adding a valid reservation that overlaps nothing on its catway keeps the store consistent. |
| Conflicts.ReplaceKeepsConsistent | controllers/reservationsController.js:188-193 | Replacing a reservation, on the same catway, by a valid one that overlaps no other keeps the store consistent. |
| Conflicts.RemoveKeepsConsistent | services/reservations.js:194-200 | Removing a reservation never breaks consistency. |
| ReservationModel.NewReservation | models/reservation.js:10-19 | `new Reservation({...})`: the `trim` setters run on the client and boat names. |
| ReservationModel.HasRequiredFields | models/reservation.js:5-27 | The `required` validators: client and boat name are non-empty once trimmed. |
| ReservationModel.EndAfterStart | models/reservation.js:33-37 | The pre-save hook: it refuses a reservation whose end is on or before its start. |
| ReservationModel.Saveable | models/reservation.js:5-37 | What `save()` lets through: the required fields, then the pre-save hook. |
| ReservationModel.ApplyPatch | services/reservations.js:151-155 | `findByIdAndUpdate` with the body: each supplied field replaces the stored one, the names through `trim`; absent fields stay. |
| ReservationModel.PatchPassesValidators | services/reservations.js:151-155 | `runValidators: true`: `required` is checked on the supplied names only, and the pre-save hook does not run. |
| ReservationStore.RemoveOutcome | services/reservations.js:194 | `findByIdAndDelete`: 404 for an unknown id, otherwise that row is removed. |
| ReservationStore.RemoveKeepsOthers | services/reservations.js:194-200 | Delete reports 404 exactly for an unknown id. It removes that reservation and keeps every other one. |
| ReservationStore.ReservationTable.Find | controllers/reservationsController.js:70-72 | Returns each stored reservation matching the filter, exactly once. |
| ReservationStore.ReservationTable.FindOne | services/reservations.js:83-94 | Returns a matching stored reservation. It returns none only when nothing matches. |
| ReservationStore.ReservationTable.FindByStartDesc | services/reservations.js:12 | Returns each matching reservation exactly once, latest start first. |
| ReservationStore.ReservationTable.Save | services/reservations.js:97-106 | Inserts the reservation under a fresh id exactly when it passes the required-field check and the end-after-start hook. Otherwise nothing changes. |
| ReservationStore.ReservationTable.Resave | controllers/reservationsController.js:193 | Overwrites the stored reservation exactly when the new value passes validation and the hook. |
| ReservationStore.ReservationTable.FindByIdAndUpdate | services/reservations.js:151-155 | Checks only `required` on the supplied fields, and does not run the hook. A valid body writes its fields over the stored reservation. |
| ReservationStore.ReservationTable.FindByIdAndDelete | services/reservations.js:194 | Returns the removed reservation, or none for an unknown id. The collection loses exactly that id. |
| ReservationService.CreateOutcome | services/reservations.js:68-111 | The API create: 404 without the catway, 400 on a hit of the `$or` query, otherwise the trimmed reservation is saved under the fresh id or refused by `save()`. |
| ReservationService.CreateReservation | services/reservations.js:68-111 | An unknown catway gives 404. The catway is looked up by its number in the catway table. A query hit on the catway gives a conflict. Otherwise the trimmed reservation is saved under a fresh id, or refused by validation. A consistent store stays consistent. |
| ReservationService.CreateKeepsConsistent | services/reservations.js:83-106 | An API create keeps the store consistent. |
| ReservationService.CreateConflictIffOverlap | services/reservations.js:83-94 | With a forward range on a valid store, create reports a conflict exactly when the catway exists and some reservation on it overlaps the range, endpoints included. |
| ReservationService.CreateOkAddsOne | services/reservations.js:97-106 | A successful create adds exactly one reservation with the given catway, the trimmed names and the given dates, start before end. Every other reservation is kept. |
| ReservationService.UpdateAsWrittenStoresInvertedRange | services/reservations.js:151-155 | As written, a lone reservation [10, 20] sent `endDate: 5` is stored running backwards, so the store is no longer consistent. |
| ReservationService.UpdateAsWrittenMovesIntoConflict | services/reservations.js:135-155 | As written, a body with `catwayNumber: 2` moves [10, 20] onto catway 2 on top of another [10, 20]. |
| ReservationService.UpdateAsWritten | services/reservations.js:119-161 | The update as written: 404 exactly for an unknown id, and a conflict only when a date is sent. The range is checked on the stored catway minus the reservation itself, and a missing side comes from the stored reservation. On success every supplied field, the catway included, is written with no end-after-start check. A failed validator gives 500 (StoreError). Every other reservation is kept. |
| ReservationService.UpdateOutcome | services/reservations.js:119-161 | Corrected (see ## Findings). The update as written with the body's `catwayNumber` dropped, and a result whose end is not after its start refused. |
| ReservationService.UpdateSucceedsIff | services/reservations.js:150-155 | Corrected (see ## Findings). Past the conflict check, the update succeeds exactly when the validators pass and the patched range ends after its start. Any other failure is a store error. |
| ReservationService.UpdateReservation | services/reservations.js:119-161 | Corrected (see ## Findings). An unknown id gives 404. The range check and its scope are as written. A `catwayNumber` in the body is not applied, and a result whose end is not after its start is refused as `save()` would refuse it. Otherwise the supplied fields are written. A consistent store stays consistent. |
| ReservationService.UpdateKeepsConsistent | services/reservations.js:119-161 | Corrected (see ## Findings). Every corrected API update leaves the store consistent. The update as written does not. |
| ReservationService.UpdateWithoutDatesNeverConflicts | services/reservations.js:131-133 | A body without dates never gets a conflict, and the stored dates stay. |
| ReservationService.UpdateConflictIffOverlap | services/reservations.js:131-147 | With a forward resolved range, update reports a conflict exactly when a date is sent and the range overlaps another reservation on the stored catway. |
| ReservationService.UpdateAloneNeverConflicts | services/reservations.js:135-147 | A reservation alone on its catway never gets a conflict. |
| ReservationService.UpdateUnknownIsNotFound | services/reservations.js:125-128 | An unknown id gives 404 and changes nothing. |
| ReservationService.DeleteReservation | services/reservations.js:190-205 | An unknown id gives 404. Otherwise exactly that reservation is removed. A consistent store stays consistent. |
| ReservationService.GetReservationById | services/reservations.js:45-60 | Returns the stored reservation, or 404 exactly when the id is unknown. |
| ReservationService.GetAllReservations | services/reservations.js:10-18 | Returns every reservation exactly once, latest start first. |
| ReservationService.GetReservationsByCatway | services/reservations.js:26-37 | Returns exactly the reservations of that catway, each once, latest start first. |
| ReservationService.GetCurrentReservations | services/reservations.js:169-182 | Returns exactly the reservations with `startDate <= today <= endDate`, each once, latest start first. |
| ReservationsController.HasConflict | controllers/reservationsController.js:74-83 | The flag ends true exactly when some fetched reservation satisfies `start <= existingEnd && end >= existingStart`. |
| ReservationsController.CreateOutcome | controllers/reservationsController.js:50-116 | The web create: an error without the catway, a conflict when the loop's test hits a reservation on the catway, otherwise the trimmed reservation is saved or refused by `save()`. |
| ReservationsController.CreateReservation | controllers/reservationsController.js:50-116 | An unknown catway gives NotFound. The catway is looked up by its number in the catway table. A hit of the loop's test gives a conflict. Otherwise the trimmed reservation is saved, or refused by validation. A consistent store stays consistent. |
| ReservationsController.CreateKeepsConsistent | controllers/reservationsController.js:70-105 | After a web create, the new reservation overlaps nothing already on its catway, and the store stays consistent. |
| ReservationsController.CreateAgreesWithApi | controllers/reservationsController.js:74-83 | On a valid store with a forward range, the web create and the API create give the same status and the same store. |
| ReservationsController.CreateDiffersFromApiOnInvertedRange | controllers/reservationsController.js:79 | For request (15, 5) against [10, 20], the web create fails validation while the API reports a conflict. |
| ReservationsController.CreateTouchingEndIsConflict | controllers/reservationsController.js:79 | With [1, 10] stored, [10, 15] on the same catway is a conflict. |
| ReservationsController.CreateAfterEndIsAccepted | controllers/reservationsController.js:79 | With [1, 10] stored, [11, 20] on the same catway is saved. |
| ReservationsController.UpdateOutcome | controllers/reservationsController.js:147-199 | The web update: an error for an unknown id, a conflict when the loop's test hits another reservation on the stored catway, otherwise the four form fields are set and `save()` decides. |
| ReservationsController.UpdateReservation | controllers/reservationsController.js:147-199 | An unknown id gives an error. The scan excludes the reservation's own id and covers its stored catway. Then all four fields are reassigned and the document is saved. A consistent store stays consistent. |
| ReservationsController.UpdateKeepsConsistent | controllers/reservationsController.js:162-194 | A web update keeps the store consistent. A refused one changes nothing. |
| ReservationsController.UpdateOkSetsFields | controllers/reservationsController.js:188-193 | A successful web update sets the trimmed names and the dates from the form. It keeps the catway and every other reservation. |
| ReservationsController.UpdateAloneNeverConflicts | controllers/reservationsController.js:162-176 | A reservation alone on its catway can be moved to any dates without a conflict. |
| ReservationsController.UpdateAgreesWithApi | controllers/reservationsController.js:147-199 | With all four fields sent, a forward range and a valid store, the web update and the corrected API update agree. |
| ReservationsController.DeleteReservation | controllers/reservationsController.js:206-219 | An unknown id gives an error. Otherwise exactly that reservation is removed. A consistent store stays consistent. |
| ReservationsController.ListReservations | controllers/reservationsController.js:9-23 | Lists every reservation exactly once, latest start first. |
| CatwayModel.BuildCatway | models/catway.js:5-21 | A catway is built exactly when the type is omitted or is `long`/`short`, and the state is not sent empty. The type defaults to short and the state to "bon état". The number and a given state are kept. |
| CatwayModel.CatwayTable.FindAll | services/catways.js:11 | Returns every stored catway exactly once. |
| CatwayModel.CatwayTable.FindAllSorted | services/catways.js:11 | Returns every catway exactly once, by strictly increasing number. |
| CatwayModel.CatwayTable.Save | models/catway.js:6-10 | The unique index: a catway is stored exactly when its number is free. |
| CatwayModel.CatwayTable.FindOneAndUpdateState | services/catways.js:80-84 | An empty state fails validation. Otherwise only the state of the matching catway changes. |
| CatwayModel.CatwayTable.FindOneAndDelete | services/catways.js:107 | Removes exactly that catway. |
| CatwayService.GetAllCatways | services/catways.js:9-17 | Returns every catway once, by increasing number. |
| CatwayService.GetCatwayByNumber | services/catways.js:25-39 | Returns the catway with that number, or 404 exactly when the number is absent. |
| CatwayService.CreateCatway | services/catways.js:47-66 | A taken number gives 400 and changes nothing. Invalid fields give 500. Otherwise exactly one catway is added and returned. |
| CatwayService.UpdateCatway | services/catways.js:74-95 | Only the state changes; number and type stay. An absent number gives 404 and changes nothing. |
| CatwayService.DeleteCatway | services/catways.js:103-118 | An absent number gives 404. Otherwise only that catway is removed; the reservation table is outside the method's frame. |
| CatwayController.ListCatways | controllers/catwayController.js:8-23 | Lists every catway once, by increasing number. |
| CatwayController.CreateCatway | controllers/catwayController.js:43-74 | A taken number gives an error and stores nothing. Otherwise the built catway is stored, or validation refuses it with StoreError. |
| CatwayController.UpdateCatway | controllers/catwayController.js:106-127 | Only the state changes. An absent number gives an error and changes nothing. |
| CatwayController.DeleteCatway | controllers/catwayController.js:134-149 | An absent number gives an error. Otherwise only that catway is removed. |
| UserModel.NormalizeEmail | models/user.js:12-18 | The email setters: lower-case, then trim. Its properties are stated by `UserModel.NormalizeEmailSpec`. |
| UserModel.NormalizeEmailSpec | models/user.js:12-18 | The stored email has no upper-case ASCII letter and no whitespace at either end. |
| UserModel.NormalizeEmailIdempotent | models/user.js:12-18 | A normalised email is left as it is by the setters. |
| UserModel.NormalizeEmailEitherOrder | models/user.js:16-17 | Lower-casing and trimming give the same email in either order. |
| UserModel.NewUser | models/user.js:6-18 | `new User({...})`: the username is trimmed and the email normalised. The password is kept for the pre-save hook. |
| UserModel.HasRequiredFields | models/user.js:7-23 | The `required` validators of username, email and password. There is no length bound on the password. |
| UserModel.PatchPassesValidators | services/users.js:91-95 | `runValidators: true` on the update: `required` is checked on the supplied fields only. |
| UserModel.PreSave | models/user.js:29-38 | A password unchanged since loading is kept exactly as stored, never hashed twice. A new or changed password is stored as its hash. |
| UserModel.ApplyPatch | services/users.js:91-95 | Fields absent from the body keep their stored values. |
| UserModel.PatchKeepsStoredShape | services/users.js:91-95 | A body that passes the update validators leaves a normalised email and every required field present. |
| UserModel.ReplaceKeepsStored | models/user.js:12-18 | Storing a well-formed account under its own email keeps every account under its own normalised email. |
| UserModel.UserTable.FindAll | services/users.js:13 | Returns every stored account exactly once. |
| UserModel.UserTable.FindOne | services/users.js:31 | Looks up the normalised email. |
| UserModel.UserTable.SaveNew | services/users.js:61-62 | Saves exactly when the required fields are present and the normalised email is free. The password is stored as its hash. |
| UserModel.UserTable.SaveLoaded | controllers/usersController.js:130 | Saves exactly when the required fields are present, through the hash-only-if-modified hook. |
| UserModel.UserTable.FindOneAndUpdate | services/users.js:91-95 | A failed validator or a taken email gives an error, and an unknown email gives NotFound. Otherwise the supplied fields replace the stored ones, under the new email key. |
| UserModel.UserTable.FindOneAndDelete | services/users.js:118 | Removes exactly the account under the normalised email. |
| UserService.GetAllUsers | services/users.js:11-19 | Returns every account exactly once, as a view without password. |
| UserService.GetUserByEmail | services/users.js:27-42 | Returns the account without its password, or 404 exactly when the email is unknown. |
| UserService.CreateUser | services/users.js:50-72 | A used email gives 400 and changes nothing. A free email with a missing field gives 500 (StoreError). Otherwise the account is stored with the password hashed, and the reply has no password. |
| UserService.HashPassword | services/users.js:86-89 | A non-empty password in the body is replaced by its hash. Every other field is kept. |
| UserService.UpdateUser | services/users.js:80-106 | A failed validator gives 500. An unknown email gives 404. A known email succeeds unless the patch moves the account onto an email another account holds, which gives 500. On success the supplied fields replace the stored ones, a supplied password is stored as its hash and never as plaintext, and the reply has no password. |
| UserService.DeleteUser | services/users.js:114-129 | An unknown email gives 404. Otherwise exactly that account is removed. |
| UsersController.CreateUser | controllers/usersController.js:42-75 | A mismatched confirmation or a used email stores nothing. A missing field gives StoreError. Otherwise one account is stored with the given username, email and hashed password. |
| UsersController.UpdateUser | controllers/usersController.js:107-137 | An unknown email gives an error. A non-empty password must equal its confirmation. The username is always overwritten and the email never changes. An empty password leaves the stored hash as it is. A username that is empty once trimmed gives StoreError. |
| UsersController.DeleteAsWrittenRemovesCaller | controllers/usersController.js:148-152 | As written, the signed-in `a@b` deleting `A@b` passes the self-deletion guard and removes their own account. |
| UsersController.DeleteKeepsCaller | controllers/usersController.js:144-163 | With the guard on the normalised email, the caller's account survives every delete, and at most the named account goes. |
| UsersController.DeleteGuardStrengthened | controllers/usersController.js:148-150 | Every request the guard as written refuses is refused the same way by the corrected guard. |
| UsersController.DeleteAsWritten | controllers/usersController.js:144-163 | The delete as written: refused exactly when the raw route email equals the caller's email. Otherwise the account under the normalised route email is removed, or an error is given when there is none. |
| UsersController.DeleteOutcome | controllers/usersController.js:144-163 | Corrected (see ## Findings). Refused when the normalised route email is the caller's. Otherwise the account under it is removed, or NotFound is given when there is none. |
| UsersController.DeleteUser | controllers/usersController.js:144-163 | Corrected (see ## Findings). A request whose normalised email is the caller's is refused before any lookup. An unknown email gives an error. Otherwise exactly that account is removed. The caller's own account is never removed. |

## Left out

- Authentication: issuing and checking JWTs, the auth middleware and login/logout. The web
  user delete takes the caller's email as a parameter.
- bcrypt: the hash is one fixed, never-empty function of the password. Salts and
  `comparePassword` are not modelled.
- Routes, application setup, the OpenAPI configuration, the MongoDB connection and the browser
  scripts. They are plumbing or I/O.
- Rendered views, messages and redirect query strings. Each outcome is reduced to a `Status`.
- The forms `showAddForm` and `showEditForm` of the three controllers. They only read and
  render.
- `listUsers`: it orders users by `createdAt`, and the `timestamps` fields are not modelled.
- The race between the conflict query and the write. Each handler is one atomic step.
- JavaScript `Date` parsing and Invalid Date comparisons. Dates are integer instants.
- Body fields that are absent or of the wrong type:
  - A missing text field is modelled as the empty string, which `required` refuses as well.
  - A missing date or catway number is not modelled.
  - `parseInt` giving `NaN` is not modelled.
- CatwayController.CreateCatway: a catway number in the form that is not a canonical integer
  is not modelled. The duplicate check queries the raw form value, while the stored number
  is `parseInt` of it. The model takes one integer for both. So it misses that `5.5`, with 5
  stored, passes the check and then hits the unique index, and that `12abc` fails the cast.
- A malformed reservation id in the reservation routes, which Mongoose rejects with a cast
  error, is not modelled.
- The catway number in the API reservation routes: the id, update and delete handlers ignore
  it, and so does the model.
- CatwayService.UpdateCatway: a body without `catwayState` is not modelled. Mongoose drops the
  undefined field, so the update leaves the catway as it is. The same holds for
  CatwayController.UpdateCatway.
- Text.LowercaseSpec: only ASCII letters are mapped; the rest of Unicode case mapping is left out.
- UserModel.HasRequiredFields: there is no password length bound. The schema's 8-character
  minimum is spelled `mingleght`, and Mongoose ignores an unknown option.
- Fields other than the schema's in a request body, such as `_id`, and the
  `createdAt`/`updatedAt` stamps.

## Findings

| source | as written | input that shows it | evidently intended | confidence | as-written member | corrected member |
|---|---|---|---|---|---|---|
| services/reservations.js:151-155 | The API update writes through `findByIdAndUpdate`, which does not run the pre-save hook rejecting `endDate <= startDate`. | A lone reservation [10, 20], updated with body `{ endDate: 5 }`, is stored with its end before its start. | Refuse the update as `save()` would. | not executed | ReservationService.UpdateAsWrittenStoresInvertedRange | ReservationService.UpdateReservation |
| services/reservations.js:135-155 | A `catwayNumber` in the body is applied, while the conflict scan covers only the stored catway. | [10, 20] on catway 1, with [10, 20] on catway 2, updated with body `{ catwayNumber: 2 }`: the two now overlap on catway 2. | The catway does not change through an update; it is the scope of the check. | not executed | ReservationService.UpdateAsWrittenMovesIntoConflict | ReservationService.UpdateReservation |
| controllers/usersController.js:148-152 | The self-deletion guard compares the raw route email with the caller's stored email. The lookup then lower-cases and trims the route email. | Signed in as `a@b`, a POST to `/users/A@b/delete` passes the guard and deletes the caller's own account. | Compare the email the lookup will use with the caller's. | not executed | UsersController.DeleteAsWrittenRemovesCaller | UsersController.DeleteUser |
