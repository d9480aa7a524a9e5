# CTIS shuttle API: a verified model of its record rules

This project models the core of a Flask/SQLAlchemy backend for a campus shuttle
service. The model covers three tables: users, shuttles and locations. It
covers the HTTP handlers that create, look up, filter, update and render rows
of those tables, and the account rules behind them:
- registration and its confirmation code;
- password login;
- signed, expiring auth tokens;
- the driver-only shuttle state changes.

Model choices:
- A row is a `map<string, Value>` whose key set is the entity's column set. `hasattr` on a row becomes key membership.
- A table is a sequence of rows in storage order. `filter_by(...).first()` becomes `Query.First` and `.all()` becomes `Query.Filtered`.
- `filter_by` compares a stored enum member equal to its wire string, as the ORM does. `Values.Rendered` expresses that comparison.
- The three tables are the fields of the class `Database.Store`. Handlers that commit changes are methods with `modifies db`, and they commit through the `Store` methods `InsertUser`, `InsertShuttle`, `InsertLocation`, `ReplaceUser`, `ReplaceShuttle` and `ReplaceLocation`. Each of them states the whole new state of the tables, and each keeps the table shape invariant `Store.Valid`. Read-only handlers take tables by value.
- A response is `Values.Response`, which has five forms:
  - the `success` envelope;
  - a bare serialization;
  - the `error` envelope with its `code`;
  - an HTTP abort;
  - an uncaught exception, which Flask answers with status 500.
- `update_entry` is a method with the payload loop of the source. It is proved against the function `UpdatedRecord`, and the properties of the update are lemmas about that function.

Inputs taken as parameters:
- Password hashing (passlib) and token signing (itsdangerous) are libraries. They enter as function values: `PasswordContext` and `Signer`. The little the code relies on is stated as the ghost predicates `SoundHashing` and `SoundSigner`:
  - a hash verifies against its plaintext and differs from it;
  - a token carries its payload until issue time plus the expiry, and is expired afterwards.
- `convert_to_snake_case` comes from `app/lib/helpers.py`, which is not part of this model. It enters as an arbitrary `toSnake: string -> string`, with nothing assumed about it.
- The clock reading `now` is a parameter.
- So are the draw of `random.randint(10000, 99999)`, the autoincrement key of a new row, and the HTTP Basic credentials.

## Model

| member | source | states |
|---|---|---|
| Enums.ParseSize | app/models/shuttles.py:7-10 | a value names a size member exactly when that member's wire string is the value |
| Enums.ParseStatus | app/models/shuttles.py:13-16 | the same for the shuttle and location status |
| Enums.ParseLocationType | app/models/shuttles.py:19-21 | the same for the location type |
| Enums.ParseUserStatus | app/models/users.py:30-34 | the same for the user status |
| Enums.ParseAccountType | app/models/users.py:37-40 | the same for the account type |
| Enums.SizeWireStrings | app/models/shuttles.py:7-10 | the size wire strings are exactly small, medium and full |
| Enums.StatusWireStrings | app/models/shuttles.py:13-16 | the shuttle status wire strings are exactly enabled, disabled and blocked |
| Enums.LocationTypeWireStrings | app/models/shuttles.py:19-21 | the location type wire strings are exactly bus_stop and building |
| Enums.UserStatusWireStrings | app/models/users.py:30-34 | the user status wire strings are exactly enabled, disabled, blocked and pending |
| Enums.AccountTypeWireStrings | app/models/users.py:37-40 | the account type wire strings are exactly driver, user and admin |
| Enums.EnumRoundTrips | app/models/shuttles.py:7-21 | looking up a member by its own value gives that member back, for every enum |
| Enums.WireValue | app/models/shuttles.py:53 | `.value` of any member is a string that the lookup of its enum maps back to that member |
| Values.Rendered | app/models/users.py:95-96 | an enum member becomes its wire string and every other value is unchanged; the result is never an enum |
| Values.JsonGet | app/api/shuttles/shuttles.py:49-52 | `request.json.get(key)`: the body's value for a key it has, null for one it lacks |
| Query.Matches | app/api/shuttles/shuttles.py:129 | `filter_by` keeps a row only when it has every named column; no arguments keep every row |
| Query.FirstMatch | app/api/shuttles/shuttles.py:74 | the index of the first matching row: that row matches, no earlier row does, and there is no index exactly when no row matches |
| Query.First | app/api/shuttles/shuttles.py:74 | `.first()` answers a stored row that matches, and answers nothing exactly when no stored row matches |
| Query.Filtered | app/api/shuttles/shuttles.py:129 | `.all()` holds exactly the stored rows that match, and no more rows than the table |
| Query.FilteredAppend | app/api/shuttles/shuttles.py:129 | `.all()` keeps storage order and multiplicity: one more stored row is added at the end exactly when it matches |
| Query.FirstChecked | app/api/users/users.py:191 | a query on a name that is no column raises, naming the unknown names; otherwise it is `.first()` |
| Query.FilteredEmpty | app/api/shuttles/shuttles.py:129-131 | `.all()` is empty exactly when no stored row matches |
| Query.FirstAgreesWithFiltered | app/api/shuttles/shuttles.py:129 | `.first()` finds nothing exactly when `.all()` is empty |
| Query.FilteredNoArgs | app/api/users/users.py:148-156 | with no filter arguments, `.all()` is the whole table in order |
| Query.FirstOfAppended | app/api/users/users.py:64-72 | a row appended after rows that all fail a query is what `.first()` then finds |
| ShuttleModels.NewShuttle | app/models/shuttles.py:64-70 | the constructor sets exactly user_id, size, brand, ac, no_of_seats and created; every other column is unset |
| ShuttleModels.InsertedShuttle | app/models/shuttles.py:30-41 | a stored shuttle gets its key, en_route defaults to False and status to enabled while a value already set is kept, the size column holds the member its wire string names, and every other column is unchanged |
| ShuttleModels.InsertedShuttleIsLoaded | app/models/shuttles.py:35-39 | a shuttle created with a size string the schema accepts reads back with enum members in both enum columns, serializes that same string, and reports enabled |
| ShuttleModels.NewLocation | app/models/shuttles.py:100-106 | the constructor sets exactly name, type, description, latitude, longitude and created |
| ShuttleModels.InsertedLocation | app/models/shuttles.py:77-85 | a stored location gets its key, status defaults to enabled while a status already set is kept, the type column holds the member its wire string names, and every other column is unchanged |
| ShuttleModels.InsertedLocationRendersType | app/models/shuttles.py:79 | a location created with a type string the schema accepts reads back with that member and serializes the same string |
| ShuttleModels.ActiveShuttleArgsSelect | app/models/shuttles.py:45 | the filter of `get_shuttle_by_id` keeps exactly the shuttles with that id whose status is enabled |
| ShuttleModels.GetShuttleById | app/models/shuttles.py:43-45 | a shuttle is returned only when both its id matches and its status is enabled; nothing is returned exactly when no stored shuttle has both |
| ShuttleModels.SerializeShuttle | app/models/shuttles.py:47-62 | the output has exactly the twelve serialized keys |
| ShuttleModels.SerializeLocation | app/models/shuttles.py:87-98 | the output has exactly the eight serialized keys |
| ShuttleModels.SizeFromWire | app/models/shuttles.py:7-10 | a known size string becomes the member it renders from; anything else is kept |
| ShuttleModels.StatusFromWire | app/models/shuttles.py:13-16 | a known status string becomes the member it renders from; anything else is kept |
| ShuttleModels.LocationTypeFromWire | app/models/shuttles.py:19-21 | a known location type string becomes the member it renders from; anything else is kept |
| ShuttleModels.ShuttleFromSerialized | app/models/shuttles.py:47-62 | reading a serialization back gives a shuttle with the table's columns |
| ShuttleModels.SerializeShuttleExposes | app/models/shuttles.py:50-59 | shuttle_id equals id; size and status are their wire strings |
| ShuttleModels.SerializeShuttleRoundTrip | app/models/shuttles.py:47-62 | serializing a loaded shuttle loses nothing: reading it back gives the same row |
| ShuttleModels.SerializeLocationIgnoresStatus | app/models/shuttles.py:87-98 | two locations that differ only in status serialize alike |
| ShuttleModels.SerializeLocationExposes | app/models/shuttles.py:90-95 | _id equals id, type is its wire string, and status is absent |
| ShuttleModels.CreatedShuttleIsActive | app/models/shuttles.py:39-45 | a new shuttle stored under a fresh id is what `get_shuttle_by_id` finds for that id |
| ShuttleModels.ShuttleTableReplace | app/api/shuttles/shuttles.py:254-257 | replacing one row with a well-formed shuttle keeps the table well formed |
| ShuttleModels.LocationTableReplace | app/api/shuttles/shuttles.py:220 | replacing one row with a well-formed location keeps the table well formed |
| UserModels.NewUser | app/models/users.py:106-114 | a new user stores the hash of the password, a registration code in 10000..99999, a False confirmed flag, the creation time, and the given email and account type |
| UserModels.InsertedUser | app/models/users.py:48-58 | a stored user gets its key, status defaults to enabled and keeps a status already set, and every other column is unchanged |
| UserModels.NewUserStoresHash | app/models/users.py:109 | the stored password is never the plaintext, and it verifies against the plaintext |
| UserModels.SerializeUser | app/models/users.py:88-99 | the output has exactly the eight public keys and never the password, registration code or confirmed flag |
| UserModels.SerializeUserRendersEnums | app/models/users.py:95-96 | status and accountType are their wire strings, or null when unset |
| UserModels.SerializeUserHidesSecrets | app/models/users.py:88-99 | the output does not depend on the password, registration code or confirmed flag |
| UserModels.GetUser | app/models/users.py:101-104 | `get_user` returns a stored user with that user_id, and returns none exactly when no stored user has it |
| UserModels.IsDriver | app/api/shuttles/shuttles.py:239 | for a member-valued account type, the user is a driver exactly when that member is `driver`; an unset account type is no driver |
| UserModels.GenerateAuthToken | app/models/users.py:67-72 | under a sound signer the token yields the caller's user_id until expiry (600 s by default) and is expired one second later |
| UserModels.VerifyAuthToken | app/models/users.py:74-86 | an expired token and a bad signature both give none; otherwise the result is the user with the embedded id, or none |
| UserModels.TokenRoundTrip | app/models/users.py:67-86 | a token resolves to its user's lookup up to 600 s after issue, and to nothing after that |
| UserModels.VerifyPassword | app/models/users.py:14-27 | an integer argument authenticates exactly when a user with that id exists and the password verifies; any other argument authenticates exactly when the token yields a user; the user authenticated is stored |
| UserModels.FreshTokenAuthenticates | app/models/users.py:14-27 | a fresh token authenticates, with any password, the user it was issued to |
| UserModels.UserTableReplace | app/api/users/users.py:199 | replacing one row with a well-formed user keeps the table well formed |
| UpdateEngine.LastWriteIndex | app/api/shuttles/shuttles.py:340-350 | finds the last payload pair whose key converts to a field, which is the one whose value remains; there is none exactly when no key converts to it |
| UpdateEngine.LastWriteStep | app/api/shuttles/shuttles.py:340-350 | one more pair wins exactly when its key converts to the field |
| UpdateEngine.ApplyOnePair | app/api/shuttles/shuttles.py:340-350 | one loop turn (skip, skip, or set) keeps the loop's meaning |
| UpdateEngine.AppliedWholePayload | app/api/shuttles/shuttles.py:340-352 | after the last turn the entry is the specified update |
| UpdateEngine.UpdatedRecord | app/api/shuttles/shuttles.py:340-350 | an update never adds or removes a field |
| UpdateEngine.ProtectedSkipList | app/api/shuttles/shuttles.py:334-338 | the caller's list is kept as a prefix; it then contains created and updated, and neither is added when already there |
| UpdateEngine.UpdateEntry | app/api/shuttles/shuttles.py:325-354 | the loop leaves the skip list protected, leaves the entry as the specified update, and returns True |
| UpdateEngine.UpdateKeepsTimestamps | app/api/shuttles/shuttles.py:334-345 | created and updated never change, whatever keys the payload carries |
| UpdateEngine.UnnamedFieldKeepsValue | app/api/shuttles/shuttles.py:340-350 | a field that no payload key converts to keeps its value |
| UpdateEngine.SurvivingKeySetsField | app/api/shuttles/shuttles.py:344-350 | a surviving key that no later key overrides sets its field to exactly the raw payload value |
| UpdateEngine.LastWriteIndexUnique | app/api/shuttles/shuttles.py:340-350 | a pair for the field with no later pair for it is the one whose value remains |
| UpdateEngine.LastWriteIgnoresOtherKey | app/api/shuttles/shuttles.py:340-350 | a pair for another field does not change which value a field receives |
| UpdateEngine.SkippedKeyHasNoEffect | app/api/shuttles/shuttles.py:344-348 | a key that is protected or names no attribute is skipped without error, and dropping it from the payload changes nothing |
| UpdateEngine.UpdateEntryAsWritten | app/api/shuttles/shuttles.py:325-335 | with the default `list` the call raises TypeError before touching anything; with a real list it is `UpdateEntry` |
| UpdateEngine.OmittedSkipListRaises | app/api/shuttles/shuttles.py:325-335 | the same rename raises when the skip list is omitted, and is applied when the list is empty |
| Database.Store.InsertUser | app/api/users/users.py:71-72 | adding and committing a user appends it to the users table, keeps every table well shaped and leaves the others unchanged |
| Database.Store.InsertShuttle | app/api/shuttles/shuttles.py:57-58 | the same for a shuttle |
| Database.Store.InsertLocation | app/api/shuttles/shuttles.py:158-159 | the same for a location |
| Database.Store.ReplaceUser | app/api/users/users.py:200-201 | committing a changed user replaces it at its position and leaves the rest unchanged |
| Database.Store.ReplaceShuttle | app/api/shuttles/shuttles.py:260 | the same for a shuttle |
| Database.Store.ReplaceLocation | app/api/shuttles/shuttles.py:352 | the same for a location |
| ShuttlesApi.DriverGuard | app/api/shuttles/shuttles.py:234-248 | success gives a position inside the shuttle table |
| ShuttlesApi.DriverGuardReasons | app/api/shuttles/shuttles.py:234-248 | each refusal arises exactly when its check is the first to fail: the driver is absent, the user is not a driver, the shuttle is not an enabled shuttle with that id, or it is another user's; success exactly when the driver owns that enabled shuttle, and the position holds it |
| ShuttlesApi.ToggledMode | app/api/shuttles/shuttles.py:252-254 | the new mode is True exactly when the old one was False |
| ShuttlesApi.DrivingShuttle | app/api/shuttles/shuttles.py:250-257 | en_route toggles to a boolean and latitude and longitude come from location; every other field is unchanged |
| ShuttlesApi.MovedShuttle | app/api/shuttles/shuttles.py:289-290 | only latitude and longitude change; en_route is untouched |
| ShuttlesApi.DrivingTwiceRestoresMode | app/api/shuttles/shuttles.py:252-254 | switching twice restores a boolean mode |
| ShuttlesApi.SwitchDriverMode | app/api/shuttles/shuttles.py:230-266 | any guard failure answers 400 with its reason and changes nothing; otherwise only that shuttle changes, as DrivingShuttle says |
| ShuttlesApi.UpdateShuttleLocation | app/api/shuttles/shuttles.py:269-299 | the same guards; otherwise only that shuttle's position changes |
| ShuttlesApi.SerializeShuttles | app/api/shuttles/shuttles.py:134 | the list holds one serialization per row, in query order |
| ShuttlesApi.SerializeLocations | app/api/shuttles/shuttles.py:204 | the same for locations |
| ShuttlesApi.StatusQuery | app/api/shuttles/shuttles.py:110 | an absent or empty status parameter means enabled |
| ShuttlesApi.ShuttleQueryArgs | app/api/shuttles/shuttles.py:110-127 | the status filter is always present; en_route is present exactly for the strings true and false, with that boolean; user_id exactly when given; nothing else |
| ShuttlesApi.ShuttleQuerySelects | app/api/shuttles/shuttles.py:110-129 | query_args matches a shuttle exactly when it is requested: the status (enabled by default), en_route for 'true' or 'false', and user_id when given |
| ShuttlesApi.EnRouteFiltersOnlyOnBooleans | app/api/shuttles/shuttles.py:118-124 | an en_route parameter other than 'true' or 'false' does not restrict |
| ShuttlesApi.GetAllShuttles | app/api/shuttles/shuttles.py:107-134 | errors 500 exactly when no shuttle is requested; otherwise it lists the matches, each a requested shuttle |
| ShuttlesApi.LocationQuerySelects | app/api/shuttles/shuttles.py:189-199 | query_args matches a location exactly when it has the status (enabled by default) and the type when given |
| ShuttlesApi.LocationQueryArgs | app/api/shuttles/shuttles.py:188-197 | the status filter is always present, type exactly when given, nothing else |
| ShuttlesApi.GetAllLocations | app/api/shuttles/shuttles.py:186-204 | errors 500 exactly when no location is requested; otherwise it lists the matches, each a requested location |
| ShuttlesApi.GetShuttle | app/api/shuttles/shuttles.py:72-81 | answers 400 exactly when no shuttle has the id, whatever its status; otherwise the bare serialization of the first shuttle that has it |
| ShuttlesApi.GetLocation | app/api/shuttles/shuttles.py:173-183 | answers 400 exactly when no location has the id; otherwise the bare serialization of the first location that has it |
| ShuttlesApi.CreateShuttle | app/api/shuttles/shuttles.py:40-69 | an unknown owner answers 400 and adds nothing; otherwise the constructed shuttle is appended, and `get_shuttle_by_id` finds it as active |
| ShuttlesApi.FreshNameKeepsNamesUnique | app/api/shuttles/shuttles.py:148-159 | appending a location under an unused name keeps location names unique |
| ShuttlesApi.AddLocation | app/api/shuttles/shuttles.py:137-170 | an existing name answers 400 and the table is unchanged; otherwise exactly the constructed location is appended; unique names stay unique |
| ShuttlesApi.UpdateShuttle | app/api/shuttles/shuttles.py:84-104 | an unknown id answers 400 and changes nothing; otherwise only that shuttle is updated (skip list ['created']), with its timestamps kept |
| ShuttlesApi.UpdateLocation | app/api/shuttles/shuttles.py:207-227 | the same with an empty skip list, for locations |
| ShuttlesApi.UpdateLocationAsWritten | app/api/shuttles/shuttles.py:207-227 | as written, every found location makes the call raise TypeError |
| ShuttlesApi.DistanceMatrixQuery | app/api/shuttles/shuttles.py:305-312 | a missing origin or destination is refused first, then an empty one; otherwise both are passed on |
| UsersApi.LoginRequired | app/api/users/users.py:187-190 | Basic credentials authenticate exactly when the user name is a token that yields a stored user |
| UsersApi.LoginRequiredIgnoresPassword | app/models/users.py:17-20 | the password never changes what `login_required` decides |
| UsersApi.LookupOwnId | app/models/users.py:101-104 | with unique ids, looking a stored user up by its own id finds that user |
| UsersApi.GetAuthToken | app/api/users/users.py:33-38 | answers 401 exactly when unauthenticated; otherwise the token authenticates the same user for the next 600 s |
| UsersApi.ShowUser | app/api/users/users.py:41-51 | 401 exactly when unauthenticated; for an authenticated caller, 400 exactly when no user has the id, otherwise the serialization of the user that has it |
| UsersApi.FreshEmailKeepsEmailsUnique | app/api/users/users.py:64-72 | appending a user under an unused email keeps emails unique |
| UsersApi.RegisterUser | app/api/users/users.py:54-104 | a taken email answers 409 and inserts nothing; otherwise exactly one user, with the given email, is appended; unique emails stay unique |
| UsersApi.RegisteredUserCanLogIn | app/api/users/users.py:114-121 | after registration the email lookup finds the new user, and the id-and-password check accepts the plaintext |
| UsersApi.AppendedUserIsFound | app/api/users/users.py:64-72 | a user stored with a fresh email and a fresh id is what the email lookup and the id lookup then find |
| UsersApi.Login | app/api/users/users.py:107-128 | 400 exactly when the email is unknown, or when the password does not verify; only on success is a token issued, and it is for the authenticated user |
| UsersApi.LoginTokenIsForTheUser | app/api/users/users.py:121-128 | with unique ids, the user `login` authenticates is the one found by email, and its token yields that user for 600 s |
| UsersApi.UserQuerySelects | app/api/users/users.py:145-156 | query_args matches a user exactly when every supplied filter holds; omitted filters do not restrict |
| UsersApi.UserQueryArgs | app/api/users/users.py:145-154 | status and account_type are filters exactly when given, with the given strings, and nothing else is |
| UsersApi.DriverArgsSelectDrivers | app/api/users/users.py:134 | the filter `account_type=AccountTypeEnum.driver` keeps exactly the driver accounts |
| UsersApi.SerializeUsers | app/api/users/users.py:161 | the list holds one serialization per row, in query order |
| UsersApi.GetAllUsers | app/api/users/users.py:142-161 | errors 500 exactly when no user is requested; otherwise lists only requested users, and with no filters every user |
| UsersApi.GetAllDrivers | app/api/users/users.py:131-139 | errors 500 exactly when no user is a driver; otherwise the list holds exactly the drivers |
| UsersApi.UpdateUser | app/api/users/users.py:164-184 | an unknown id answers 400 and changes no record; otherwise only that user is updated, with its timestamps kept |
| UsersApi.UpdateUserAsWritten | app/api/users/users.py:164-184 | as written, every found user makes the call raise TypeError |
| UsersApi.ConfirmRegistration | app/api/users/users.py:187-213 | 401 when unauthenticated and 400 for an unknown user; the confirmed flag becomes True exactly when the code equals the stored one; otherwise 400 and the user is unchanged |
| UsersApi.UsernameQueryRaises | app/api/users/users.py:191 | User has no username column, so the lookup raises whatever the table holds |
| UsersApi.ConfirmRegistrationAsWritten | app/api/users/users.py:187-213 | as written, every authenticated request raises, and no registration is ever confirmed |

## Left out

- HTTP plumbing is not modelled: routing, `jsonify`, Blueprints, logging and the messages' text. Responses carry a reason in place of the message.
- The `uri` link from `url_for` is not modelled. Its target is routing, not data, so `create_shuttle`, `add_location` and `register_user` answer the serialization without it.
- Request validation is not modelled. The jsonschema validators in app/api/shuttles/schemas.py and app/api/users/schemas.py appear only as preconditions: `SwitchDriverMode` requires `location` with latitude and longitude, and `RegisterUser` requires an account type from driver, user and admin. Bodies that fail the schemas, and their 400 answer, are left out.
- Commit failures (`SQLAlchemyError`), unique-constraint violations and foreign keys are not modelled. Of the database's type coercion, only the `Enum` columns of an inserted shuttle or location are modelled: they read back as the member their wire string names (`InsertedShuttle`, `InsertedLocation`). Values that `update_entry` sets stay as given, for example the string `"small"` in `size`; `Rendered` makes such a string compare and serialize exactly like the member it names, and a string that names no member, which the commit would reject, is stored as it is. Route ids and `user_id` query parameters are integers in the model, as the database compares them.
- `onupdate=datetime.now` is not modelled: `updated` is never refreshed by a commit. Timestamps, latitudes and longitudes are opaque values with no arithmetic.
- `sleep(1)` in `register_user` is timing only. The commented-out confirmation email is not modelled, and neither is app/lib/email.py.
- The Google Maps call of `get_distance_matrix` is a network call and is not modelled. Only its origin and destination checks are modelled, in `DistanceMatrixQuery`.
- The cached example handler in app/api/users/users.py is not modelled. It reads the clock and has no data rules.
- `print converted_prop` in `update_entry` is console output and is not modelled.
- `hasattr(entry_object, converted_prop)` in `update_entry` is modelled as membership in the row's columns. In the source it is also true for the model's methods and properties (`serialize`, `verify_password`, `generate_auth_token`, `get_user`, `get_shuttle_by_id`) and for inherited attributes such as `query` and `metadata`. A payload key naming the `serialize` property makes `setattr` raise an uncaught AttributeError (an answer of 500), and a key such as `query` would overwrite an attribute of that instance. The model skips all such keys.
- SerializeShuttle: renders an unset size or status as null, where `self.size.value` in the source raises. The creation schema requires `size` (app/api/shuttles/schemas.py:20) and every stored shuttle gets its status by default, so an unset size arises only when `update_shuttle` sets it to null.
- SerializeLocation: renders an unset type as null, where the source raises in the same way.
- VerifyPassword: the authenticated user is returned instead of being written to `g.user`.
- Login: uses the user returned by `VerifyPassword` where the source reads `g.user`. The two are the same whenever ids are unique (`LoginTokenIsForTheUser`).
- GenerateAuthToken: the token is handled as text. The source's `token.decode('ascii')` of the signed bytes is not modelled.
- ConfirmRegistration: `int(secret_code)` on the body is not modelled. The schema makes the code an integer, so the model takes it as one.
- ConfirmRegistrationAsWritten: line 211 (`user.username`) would also raise on every mismatch. It is not modelled separately, because the query at line 191 already raises.
- The Directions table of the migrations is not modelled. No model class exists for it in the code.
- Python 2 `long` user ids are treated as `int`.
- Result order is not promised by the source: `.first()` and `.all()` are issued without `order_by`, so the database may answer in any order. The model fixes storage order, which makes `.first()` the earliest stored match.
- Database collation is not modelled: MySQL's case-insensitive string comparison in `filter_by` would differ. Emails and names compare exactly.

## Findings

| source | as written | input that shows it | evidently intended | confidence | as-written member | corrected member |
|---|---|---|---|---|---|---|
| app/api/shuttles/shuttles.py:325 | `update_entry(payload, entry_object, skip_values=list)`: the default is the type `list` itself, so `'created' not in skip_values` at line 334 raises TypeError. The two callers that omit the argument (`update_location` at line 220, `update_user` at app/api/users/users.py:177) fail on every row they find. | `PUT /locations/<id>` for an existing location with body `{"name": "Main Library"}` | an empty skip list by default, so the update applies with only the timestamps protected | not executed | UpdateEngine.UpdateEntryAsWritten, UpdateEngine.OmittedSkipListRaises | UpdateEngine.UpdateEntry |
| app/api/users/users.py:191 | `User.query.filter_by(username=username)`: User has no `username` column (app/models/users.py:48-58), so SQLAlchemy raises for every request that passes `login_required`. | any authenticated `POST /users/<name>/confirm` with `{"registrationCode": 12345}` | look the user up by one of its columns, then compare codes | not executed | UsersApi.ConfirmRegistrationAsWritten, UsersApi.UsernameQueryRaises | UsersApi.ConfirmRegistration |
