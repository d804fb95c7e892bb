# Car rental website: a verified model of its core

The system is a small car-rental and trip site. It is a FastAPI back end over
one SQLite file, a browser chat widget and a one-off migration script:

- **Admins** manage cars, picnic spots and "last trip" stories, and moderate
  the visitors' comments on those stories. They sign each request with a
  username and password, which are checked against the `admin` table.
- **Visitors** register, log in with a session token and chat with an
  assistant. The assistant answers with fixed keyword rules, or with an AI
  completion built from the last rows of the conversation.
- **The chat widget** can also run an eight-question trip planner in the
  browser.
- **The migration script** rebuilds the `users`, `sessions` and `chat_logs`
  tables for an e-mail keyed layout.

The model takes the source's own shape:

- Each table is a `DbOps.Table` object. It holds a map from row id to row and
  the AUTOINCREMENT counter. Inserts, updates and deletes change it in place.
- Each handler is a method over those tables. Its contract gives its whole
  outcome (the HTTP status and detail, or the body) and the new table state.
- Pure parts are functions. They cover the filename sanitiser, `spots`
  normalisation, `row_to_dict`'s JSON decode, `json.dumps`/`json.loads` of
  string lists, the keyword reply rules, the planner transitions and the
  migration's statements.
- The properties each operation promises are proved about those functions,
  as lemmas.

Modules, one per source file plus shared helpers:

| module | models |
|---|---|
| `Wrappers` | `Option`, `Field` (absent / JSON null / given) and the `Response` of a handler |
| `PyText` | Python `str.strip`, `str.split`, `int(str)`, JavaScript `String.trim`, and `str.lower`/`toLowerCase` as seen by ASCII keyword tests |
| `Json` | `json.dumps` of a list of strings (ASCII output) and a `json.loads` parser; the round trip is proved |
| `Sorting` | table scan order and SQL's `ORDER BY … DESC` as a stable sort |
| `Db` | `src/db.py` `row_to_dict`, and the `fetchone_dict`/`fetchall_dicts` readers |
| `DbOps` | `src/db_ops.py`: the table store, `execute`'s count, `verify_admin`, `init_db` |
| `Patch` | the sparse `UPDATE … SET` builder shared by every update handler |
| `Uploads` | the upload sanitiser and stored-path construction shared by the three upload endpoints |
| `AdminApi`, `UsersApi`, `CarsApi`, `SpotsApi`, `LastTripsApi`, `ChatApi` | the handlers of `src/api/*.py` |
| `ChatWidget` | the planner state machine and `sendMessage` of `public/chat-widget.js` |
| `Migration` | `migrate_database.py` |

Things passed in as parameters:

- the bcrypt hash and verify pair, with the salt;
- the session token `secrets.token_urlsafe` draws;
- every `datetime` reading;
- the AI completion call;
- JavaScript's `Number()` verdict on a planner answer.

## Model

| member | source | states |
|---|---|---|
| Db.DecodeValue | src/db.py:16-20 | a value is replaced only when it is text starting with '[' or '{' and `json.loads` accepts it, and then by the loaded value; otherwise it is returned unchanged, including a candidate that fails to parse |
| Db.RowToDict | src/db.py:12-21 | the loop over the row's items yields a dict with exactly the row's keys, where each value is the row's value passed through the decode rule |
| Db.DecodeEntry | src/db.py:16-20 | one step of the loop replaces that key's entry by the decode rule's value and leaves every other entry as it was |
| Db.FetchOneDict | src/db_ops.py:40-42 | `None` exactly when no row is found; otherwise a dict with the row's keys |
| Db.FetchAllDicts | src/db_ops.py:29-30 | one dict per fetched row, in the same order, each being `row_to_dict` of that row |
| Db.StoredListReadsBack | src/db.py:16-18 | text written as `json.dumps` of a list of strings reads back as that same list |
| Db.StoredRowReadsBack | src/db.py:13-21 | in a row whose list columns hold `json.dumps` of string lists, each of those columns reads back as its list, and the key set is unchanged |
| Db.LeadingSpaceNotDecoded | src/db.py:16 | text whose first character is JSON whitespace is never decoded |
| Db.LeadingSpaceExample | src/db.py:16-18 | `" " + json.dumps(xs)` is valid JSON for `xs`, yet `row_to_dict` returns it as plain text |
| Db.SelectAvailableEntries | src/api/cars.py:40-43 | every entry of `WHERE available = 1` is the `SELECT *` dict of an available row, carrying its id and `available` 1 |
| Db.SelectAvailableExact | src/api/cars.py:40-43 | the listed ids are exactly the available rows' ids, in ascending order |
| Db.SelectById | src/db_ops.py:40-42 | a lookup by id finds a row exactly when the id is stored, and returns its dict with that id |
| DbOps.Table.Empty | src/db_ops.py:83-96 | a new table has no rows and its AUTOINCREMENT counter at 1 |
| DbOps.Table.Insert | src/db_ops.py:60-67 | `insert` returns the next id, which no row had before; it adds exactly that row and advances the counter |
| DbOps.Table.UpdateWhere | src/db_ops.py:45-58 | every matching row is rewritten and every other row kept; the returned count is the number of matches |
| DbOps.Table.UpdateAt | src/db_ops.py:45-58 | `UPDATE … WHERE id = ?` rewrites that row only if present, and counts 1 or 0 |
| DbOps.Table.DeleteAt | src/db_ops.py:45-58 | `DELETE … WHERE id = ?` removes that id (a missing id is no error), and counts 1 or 0 |
| DbOps.Table.DeleteWhere | src/db_ops.py:45-58 | exactly the matching rows are removed; the count is their number, which is how many rows the table lost |
| DbOps.WithoutIdempotent | src/db_ops.py:45-58 | after a conditional delete nothing matches, so repeating the delete changes nothing |
| DbOps.ExecuteCount | src/db_ops.py:50-56 | `execute` returns rowcount unless it is -1, then `changes()`, and 0 when that read fails |
| DbOps.DeleteCountIsRemoved | src/db_ops.py:45-58 | `execute` applied to the count a DELETE reports returns the number of rows the DELETE removed from the table |
| DbOps.VerifyAdminRefuses | src/db_ops.py:70-75 | an unknown username and a wrong password for a known one are both refused |
| DbOps.AtMostOneMatch | src/db_ops.py:123-129 | with unique usernames, at most one admin row matches a credential pair |
| DbOps.AddColumn | src/db_ops.py:113-120 | `ALTER TABLE … ADD COLUMN` succeeds exactly when the table exists and lacks the column, and appends it |
| DbOps.CreateTableKeeps | src/db_ops.py:83-96 | `CREATE TABLE IF NOT EXISTS` adds the table when missing and leaves every existing table as it was |
| DbOps.SpotStepsEstablish | src/db_ops.py:99-120 | after the picnic_spots steps both image columns exist, other tables are untouched, and a table that already has them is unchanged (the duplicate-column error is swallowed) |
| DbOps.InitSchemaTail | src/db_ops.py:123-189 | the remaining CREATEs add the six later tables and keep every existing one |
| DbOps.InitSchemaEstablishes | src/db_ops.py:81-189 | `init_db` yields all eight tables, picnic_spots with both image columns, and keeps every other pre-existing table as it was |
| DbOps.InitSchemaFresh | src/db_ops.py:81-189 | on an empty database `init_db` creates exactly the eight tables with their declared columns |
| DbOps.InitSchemaIdempotent | src/db_ops.py:83-120 | a second `init_db` leaves the schema unchanged |
| DbOps.SeedAdmin | src/db_ops.py:192-193 | afterwards an admin named 'admin' exists; ('admin','admin123') is inserted only when no such admin existed, and otherwise the table is kept |
| DbOps.SeedAdminIdempotent | src/db_ops.py:192-193 | a second seeding adds nothing, and a changed 'admin' password still verifies afterwards |
| DbOps.SeedAdminUnique | src/db_ops.py:192-193 | seeding keeps admin usernames unique |
| DbOps.Database.constructor | src/db_ops.py:12-13 | a fresh database has no schema and no admin rows |
| DbOps.Database.CheckAdmin | src/db_ops.py:70-75 | `verify_admin` (and the module-level one at src/db_ops.py:197-198) returns exactly whether some admin row has that username and password |
| DbOps.Database.InitDb | src/db_ops.py:81-193 | `init_db` moves the schema to its established form and seeds the default admin |
| AdminApi.CreateOutcome | src/api/admin.py:21-36 | success exactly when the authorizer verifies and the new username is free; 401 whenever the authorizer fails, checked first; an authorized request for a taken username gets 400 |
| AdminApi.ChangeOutcome | src/api/admin.py:42-61 | success exactly when the authorizer verifies, the target exists and differs from the authorizer; 401 is checked first, then 404 for a missing target, then 403 when the authorizer names itself |
| AdminApi.AuthorizerIsNamed | src/api/admin.py:25-27 | an authorizer that verifies owns an admin row with its username |
| AdminApi.CreateNeverTakesAuthorizerName | src/api/admin.py:25-32 | creating an admin with the authorizer's own name gives 400 (or 401 when unauthorized), never success |
| AdminApi.SelfChangeRejected | src/api/admin.py:46-57 | a self-change is 403 with valid credentials and 401 with invalid ones |
| AdminApi.SetPasswordFrame | src/api/admin.py:60 | the update changes only the target's password; ids, usernames and other passwords stay, and usernames stay unique |
| AdminApi.ChangeKeepsAuthorizer | src/api/admin.py:46-60 | after a change the authorizer still verifies with its own password and the target verifies with the new one |
| AdminApi.CreateAdmin | src/api/admin.py:21-36 | the handler returns `CreateOutcome`; on success exactly one admin with the given credentials is added; on failure nothing is written; usernames stay unique |
| AdminApi.ChangeAdminPassword | src/api/admin.py:42-61 | the handler returns `ChangeOutcome`; on success the table becomes `SetPassword`, otherwise it is unchanged |
| UsersApi.RegisterUser | src/api/users.py:27-41 | 400 exactly when the username or the e-mail is taken, with no write; otherwise exactly one user is inserted, holding the password's hash |
| UsersApi.RegisteredUserCanLogIn | src/api/users.py:33-52 | a registered user's credentials match at login, given that verify accepts hash(password) |
| UsersApi.LoginUser | src/api/users.py:43-61 | the same 401 for an unknown user and a wrong password; on success one session for that user's id with the returned token is added and older sessions are kept; a clashing token is a 500 with no write |
| UsersApi.LogoutUser | src/api/users.py:63-66 | always "Logged out"; exactly the sessions with that token are removed, leaving none |
| UsersApi.LogoutIdempotent | src/api/users.py:63-66 | a second logout with the same token changes nothing |
| UsersApi.PublicUser | src/api/users.py:74 | the returned user has id, username, email and created_at, and never the password hash |
| UsersApi.GetMe | src/api/users.py:68-75 | 401 exactly when no session has the token; otherwise the public row of that session's user, or `None` if that user is gone |
| UsersApi.LoginMeLogoutMe | src/api/users.py:43-75 | after login, `me` with the returned token answers the public dict of the stored user with that username; after logout, `me` with the same token is 401 |
| CarsApi.CarRowColumns | src/api/cars.py:61-76 | the inserted row has exactly the nine data columns; `available` defaults to true and `description` to "" |
| CarsApi.AddedCarReadsBack | src/api/cars.py:63-76 | reading the inserted car back gives its images as the given list, and its id, seats and price as stored |
| CarsApi.DescriptionMayDecode | src/api/cars.py:74 | a description that happens to be JSON text (such as "[]") comes back decoded, not as the text stored |
| CarsApi.AddCar | src/api/cars.py:52-78 | 401 without verified admin credentials; an object that `Car(**car)` refuses raises (500); otherwise exactly the car row is inserted under the returned id |
| CarsApi.GetCars | src/api/cars.py:40-43 | every listed car has `available` 1 |
| CarsApi.GetCar | src/api/cars.py:45-50 | the car's dict with its id exactly when it is stored, otherwise 404 "Car not found" |
| CarsApi.CarUpdateColumnsDistinct | src/api/cars.py:93-119 | the nine columns tested are pairwise distinct |
| CarsApi.CarSetsEmpty | src/api/cars.py:121-122 | the SET list is empty exactly when every field is None |
| CarsApi.CarSetsOrdered | src/api/cars.py:93-119 | the SET columns keep the fixed test order and appear at most once |
| CarsApi.BuildCarUpdate | src/api/cars.py:90-119 | the appended `update_fields` and `values` are the columns and values of the non-None fields, in order |
| CarsApi.UpdateCarOutcome | src/api/cars.py:80-129 | success exactly for a verified admin and a non-empty patch; 401 first; 400 "No fields to update" for an all-None patch |
| CarsApi.UpdateCar | src/api/cars.py:80-129 | returns `UpdateCarOutcome`; on success a stored car gets the SET applied, and a missing id still succeeds with no write |
| CarsApi.UpdatedCarRow | src/api/cars.py:124-127 | after the update, each tested column holds its new value if given and its old value otherwise, and untested columns are kept |
| CarsApi.UpdatedImagesReadBack | src/api/cars.py:111-113 | updated images read back as the given list |
| CarsApi.DeleteCar | src/api/cars.py:131-139 | 401 with no write without credentials; otherwise the id is removed and success reported even for a missing id |
| CarsApi.DeletedCarGone | src/api/cars.py:131-139 | after a delete, `get_car` is 404 and the car is no longer in the list |
| CarsApi.UploadCarImages | src/api/cars.py:15-38 | 401 without credentials; otherwise one "/images/cars/…" path per file, in order |
| SpotsApi.SpotRowColumns | src/api/spots.py:60-75 | the inserted row has exactly the spot's data columns, with both image columns; `available` defaults to true |
| SpotsApi.AddedSpotReadsBack | src/api/spots.py:62-75 | images read back as given; trip and hotel images read back as given, or as `[]` when not supplied |
| SpotsApi.AddSpot | src/api/spots.py:52-77 | 401 without credentials; a refused object is 500; otherwise exactly the spot row is inserted under the returned id |
| SpotsApi.GetSpots | src/api/spots.py:40-43 | every listed spot has `available` 1 |
| SpotsApi.GetSpot | src/api/spots.py:45-50 | the spot's dict exactly when stored, otherwise 404 "Spot not found" |
| SpotsApi.SpotUpdateColumnsDistinct | src/api/spots.py:92-118 | the nine columns tested are pairwise distinct |
| SpotsApi.SpotSetsEmpty | src/api/spots.py:120-121 | the SET list is empty exactly when every field is None |
| SpotsApi.SpotSetsOrdered | src/api/spots.py:92-118 | the SET columns keep the fixed order and appear at most once |
| SpotsApi.BuildSpotUpdate | src/api/spots.py:89-118 | the appended lists are the columns and values of the non-None fields, in order |
| SpotsApi.UpdateSpotOutcome | src/api/spots.py:79-128 | success exactly for a verified admin and a non-empty patch; 401 first; 400 for an all-None patch |
| SpotsApi.UpdateSpot | src/api/spots.py:79-128 | returns `UpdateSpotOutcome`; a stored spot gets the SET applied, and a missing id succeeds with no write |
| SpotsApi.UpdatedSpotRow | src/api/spots.py:123-126 | each tested column holds its new value if given, else its old one; other columns are kept |
| SpotsApi.UpdatedHotelImages | src/api/spots.py:114-115 | new hotel images read back as given while the trip images stay as they were |
| SpotsApi.DeleteSpot | src/api/spots.py:130-138 | 401 with no write without credentials; otherwise the id is removed, with success even for a missing id |
| SpotsApi.UploadSpotImages | src/api/spots.py:15-38 | 401 without credentials; otherwise one "/images/spots/…" path per file, in order |
| LastTripsApi.PyInt | src/api/last_trips.py:130-131 | `int()` keeps integers, turns booleans into 1/0, parses strings as Python's `int()` does (skipping only the whitespace `int()` skips), and raises for any other JSON value (null, list, object, float) |
| LastTripsApi.KeepStrippedItems | src/api/last_trips.py:116 | stripping and dropping empty pieces leaves only non-empty, stripped items without ',' |
| LastTripsApi.NormalizedItems | src/api/last_trips.py:116 | every normalised spots list consists of non-empty, stripped items without ',' |
| LastTripsApi.KeepStrippedNormal | src/api/last_trips.py:116 | already normalised items pass through unchanged |
| LastTripsApi.NormalizePieces | src/api/last_trips.py:116 | normalising the ","-joined pieces is stripping those pieces and dropping the empty ones |
| LastTripsApi.NormalizeJoin | src/api/last_trips.py:112-117 | normalising the ","-joined text of a normal list gives that list back |
| LastTripsApi.NormalizeSpaced | src/api/last_trips.py:116 | the same for a list joined with ", " |
| LastTripsApi.NormalizeIdempotent | src/api/last_trips.py:116 | normalisation is idempotent |
| LastTripsApi.AddSpotItems | src/api/last_trips.py:111-117 | a missing or null `spots` becomes `[]`; only a truthy non-list, non-string value raises |
| LastTripsApi.SpotsAgree | src/api/last_trips.py:112-117 | `["X","Y"]` and `"X,Y"` store the same spots list |
| LastTripsApi.SpacedSpotsAgree | src/api/last_trips.py:112-117 | `"X, Y"` stores the same list too |
| LastTripsApi.PaddedSpots | src/api/last_trips.py:112-117 | `"X,,Y ,"` stores the same list as `["X","Y"]` |
| LastTripsApi.AddCount | src/api/last_trips.py:130-131 | a missing `days`/`persons` is 0; an explicit null raises |
| LastTripsApi.AddRowSchema | src/api/last_trips.py:122-138 | the inserted row has exactly the trip's data columns with every NOT NULL column set; the insert fails exactly when a required text is missing, spots raise, or `int()` raises |
| LastTripsApi.TripRow | src/api/last_trips.py:122-138 | the inserted row has exactly the ten data columns, no NOT NULL column is NULL, and `spots` holds the JSON text of the spot list |
| LastTripsApi.AddRowDefaults | src/api/last_trips.py:116-136 | `available` is always 1 and `created_at` is the clock reading; missing days and persons give 0, missing spots and images give `[]`, and a missing feedback is NULL |
| LastTripsApi.AddedSpotsReadBack | src/api/last_trips.py:111-117 | the stored spots read back as the normalised list |
| LastTripsApi.AddLastTrip | src/api/last_trips.py:100-139 | 401, then 400 "Missing trip data" for a missing or empty trip, then 500 when the row cannot be built; on success exactly that row is inserted under the returned id, and otherwise nothing is written |
| LastTripsApi.TripUpdateColumnsDistinct | src/api/last_trips.py:156-188 | the nine columns tested are pairwise distinct |
| LastTripsApi.TripSetsEmpty | src/api/last_trips.py:190-191 | when no conversion raises, the SET list is empty exactly when no field is present and non-null |
| LastTripsApi.TripSetsOrdered | src/api/last_trips.py:156-188 | the SET columns follow the fixed order, each at most once |
| LastTripsApi.AddBound | src/api/last_trips.py:156-188 | one `if` block: it raises, appends this column and value, or appends nothing |
| LastTripsApi.BuildTripUpdate | src/api/last_trips.py:152-188 | the builder fails exactly when some conversion raises; otherwise its lists are the SET list's columns and values |
| LastTripsApi.UpdateTripOutcome | src/api/last_trips.py:142-195 | success exactly for a verified admin, a present trip, no conversion error and at least one field; 401, then 400 missing, then 400 no fields |
| LastTripsApi.UpdateLastTrip | src/api/last_trips.py:142-195 | returns `UpdateTripOutcome`; a stored trip gets the SET applied, and otherwise nothing changes |
| LastTripsApi.UpdatedTripRow | src/api/last_trips.py:193-194 | each tested column holds its new value if given, else its old one; untested columns are kept |
| LastTripsApi.UpdatedAvailable | src/api/last_trips.py:186-188 | a non-null `available` is stored as 1 or 0 by Python truthiness |
| LastTripsApi.FalseTextKeepsListed | src/api/last_trips.py:186-188 | the string "false" is truthy, so it stores 1 |
| LastTripsApi.UpdateKeepsCreated | src/api/last_trips.py:193-194 | an update never changes `created_at` |
| LastTripsApi.CountFromText | src/api/last_trips.py:168-170 | `days` given as the decimal text of n is stored as n |
| LastTripsApi.CommentRow | src/api/last_trips.py:89-94 | the inserted comment refers to its trip |
| LastTripsApi.CommenterName | src/api/last_trips.py:83 | the name is the given one when non-empty, otherwise "Guest"; it is never empty |
| LastTripsApi.AddTripComment | src/api/last_trips.py:81-96 | 400 for a missing or empty comment (before the trip lookup), then 404 for a missing trip; on success exactly one comment row; comments keep referring to existing trips |
| LastTripsApi.CommentSetsShape | src/api/last_trips.py:224-234 | the SET list holds name then comment, each iff given; it is empty iff neither is given |
| LastTripsApi.BuildCommentUpdate | src/api/last_trips.py:224-231 | the appended lists are that SET list's columns and values |
| LastTripsApi.ModerationGate | src/api/last_trips.py:210-222 | 401, then 404 "Trip not found", then 404 "Comment not found" unless the comment belongs to the trip |
| LastTripsApi.AdminUpdateComment | src/api/last_trips.py:208-240 | the gate decides first, then 400 for an empty update; on success only that comment is rewritten; errors write nothing |
| LastTripsApi.ModeratedComment | src/api/last_trips.py:236-239 | moderation changes only name and comment, never trip_id or created_at |
| LastTripsApi.AdminDeleteComment | src/api/last_trips.py:243-259 | the gate decides; on success exactly that comment is removed; comments keep referring to existing trips |
| LastTripsApi.DeleteLastTrip | src/api/last_trips.py:198-205 | 401 with no write; otherwise the trip id is removed (as written, the comments table is not touched) |
| LastTripsApi.DeleteLeavesOrphans | src/api/last_trips.py:198-205 | deleting a trip that has a comment leaves a comment referring to no trip, and `get_trip_comments` still returns it |
| LastTripsApi.DeleteLastTripCascade | src/db_ops.py:180-189 | the delete with the declared ON DELETE CASCADE: the trip and its comments are removed, and references stay sound |
| LastTripsApi.CascadeKeepsReferences | src/db_ops.py:187 | after the cascade no comment refers to the deleted trip, and sound references stay sound |
| LastTripsApi.ListLastTripsCorrect | src/api/last_trips.py:44-49 | the public list is exactly the available trips, as a permutation of their scan order, newest `created_at` first, each as its row's dict |
| LastTripsApi.AdminListLastTrips | src/api/last_trips.py:262-270 | 401 exactly without verified credentials; otherwise one entry per stored trip |
| LastTripsApi.AdminListLastTripsCorrect | src/api/last_trips.py:262-270 | for a verified admin, the list holds every stored trip once and nothing else, as the dict of its row with its id, ordered by non-increasing creation stamp |
| LastTripsApi.AdminListHasAll | src/api/last_trips.py:267-269 | every stored trip, listed or not, is in the admin list |
| LastTripsApi.TripCommentIdsExact | src/api/last_trips.py:57-58 | a trip's comments are exactly those linked to it, highest id first |
| LastTripsApi.GetTripComments | src/api/last_trips.py:65-72 | one entry per comment id the query returns, in that order; each is a comment linked to the trip, given as the dict of its id, name, comment and created_at, without the trip_id column |
| LastTripsApi.TripCommentIdsLinked | src/api/last_trips.py:57-58 | every id the comment query returns names a stored comment of that trip |
| LastTripsApi.GetLastTrip | src/api/last_trips.py:52-62 | any stored trip (listed or not) with its comments; otherwise 404 "Trip not found" |
| LastTripsApi.UploadTripImages | src/api/last_trips.py:17-40 | 401 without credentials; otherwise one "/images/last_trips/…" path per file, in order |
| Patch.Chosen | src/api/cars.py:93-119 | the SET list has no more entries than there are columns, and is empty exactly when every value is None |
| Patch.ChosenAppend | src/api/cars.py:93-119 | consecutive `if` blocks contribute their entries in sequence |
| Patch.AddIfPresent | src/api/cars.py:93-95 | one `if value is not None` block appends its column and value exactly when the value is present |
| Patch.ChosenOrdered | src/api/cars.py:93-119 | the SET columns are a subsequence of the tested columns |
| Patch.ChosenDistinct | src/api/cars.py:93-119 | over distinct columns, no SET column repeats: the SET list has at most one entry per column |
| Patch.ChosenLookup | src/api/cars.py:93-119 | the SET list binds each tested column to exactly its optional value |
| Patch.ChosenUnknown | src/api/cars.py:124-127 | a column not tested is never SET |
| Patch.ApplyAt | src/api/cars.py:124-127 | `UPDATE … SET` gives each SET column its bound value and leaves the other columns as they were |
| Patch.UpdatedRow | src/api/cars.py:124-127 | each tested column ends with its new value if present, else its old one; untested columns are unchanged |
| Patch.ExecuteUpdate | src/api/cars.py:124-127 | the statement with `id` bound last rewrites that row only if it exists, and counts 1 or 0 |
| Uploads.Sanitize | src/api/cars.py:29 | the substitution never lengthens a name and keeps it empty exactly when it was empty |
| Uploads.SanitizeAllowed | src/api/cars.py:29 | the result has only letters, digits, '_' and '-' |
| Uploads.SanitizeFixed | src/api/cars.py:29 | a name made of allowed characters is unchanged |
| Uploads.SafeBaseIdempotent | src/api/cars.py:29 | the safe base is non-empty and allowed; sanitising again changes nothing |
| Uploads.SafeBaseEmpty | src/api/cars.py:29 | the base is "image" exactly when the sanitised base is empty or already "image" |
| Uploads.SplitExt | src/api/cars.py:28 | `splitext` splits the name into base and extension, where the extension is empty or a '.' part with no '/' |
| Uploads.StoredNameStaysInFolder | src/api/cars.py:29-31 | the new file name holds no '/', so the path stays in the upload folder |
| Uploads.StoredNameShape | src/api/cars.py:27-31 | the new name is the safe base, '_', the time suffix and the original extension |
| Uploads.NewName | src/api/cars.py:27-31 | the name computed for one file, with the "upload" and "image" fallbacks, is the stored name whose shape `StoredNameShape` gives |
| Uploads.StoredPathsAt | src/api/cars.py:26-35 | the i-th saved path is the path built for the i-th file |
| Uploads.UploadImages | src/api/cars.py:15-38 | the loop over the files: 401 without credentials, otherwise the saved paths, one per file in order |
| Json.DumpString | src/api/cars.py:113 | a dumped string is enclosed in double quotes |
| Json.DumpStrings | src/api/cars.py:113 | a dumped list is enclosed in '[' and ']' |
| Json.DumpStringIsAscii | src/api/cars.py:113 | with `ensure_ascii`, every character of the output is printable ASCII |
| Json.Hex4RoundTrip | src/db.py:18 | a `\uXXXX` escape decodes to the code unit it encodes |
| Json.EscapeCharRoundTrip | src/db.py:18 | an escaped character parses back to that character |
| Json.EscapeBodyRoundTrip | src/db.py:18 | an escaped string body parses back to that string, up to the closing quote |
| Json.DumpStringRoundTrip | src/db.py:18 | `loads` of a dumped string gives that string |
| Json.DumpItemsRoundTrip | src/db.py:18 | the dumped items of a list parse back to their string values |
| Json.ListParses | src/db.py:18 | a dumped non-empty list parses to its string values with nothing left over |
| Json.EmptyListParses | src/db.py:18 | "[]" parses to the empty array |
| Json.DumpStringsRoundTrip | src/db.py:16-18 | `json.loads(json.dumps(xs))` is the array of the strings of `xs` |
| Json.LoadsWhole | src/db.py:18 | a value that parses with nothing left is what `loads` returns |
| Json.LoadsAfterSpace | src/db.py:18 | `loads` ignores leading whitespace |
| PyText.Strip | src/api/last_trips.py:116 | the result neither starts nor ends with whitespace, and is no longer than the input |
| PyText.StripUnchanged | src/api/last_trips.py:116 | text without outer whitespace is unchanged |
| PyText.StripIdempotent | src/api/last_trips.py:116 | stripping twice is stripping once |
| PyText.StripWithin | src/api/last_trips.py:116 | stripping keeps only characters of the input |
| PyText.Split | src/api/last_trips.py:116 | `split` gives at least one piece, and no piece holds the separator |
| PyText.JoinSplit | src/api/last_trips.py:116 | joining the pieces with the separator gives the text back |
| PyText.SplitJoin | src/api/last_trips.py:116 | splitting a join of separator-free pieces gives the pieces back |
| PyText.Lower | src/api/chat.py:205 | the lowered text has no upper-case ASCII letter |
| PyText.JsTrim | public/chat-widget.js:143 | the trimmed input has no outer JavaScript whitespace |
| PyText.ParseDigits | src/api/last_trips.py:130-131 | `int()` of a decimal digit string is its value |
| PyText.ParseNegativeDigits | src/api/last_trips.py:130-131 | `int("-" + d)` is minus the value of d |
| PyText.ParseIntString | src/api/last_trips.py:170 | `int(str(n)) == n` for every integer |
| PyText.ParseIntControlPrefix | src/api/last_trips.py:130-131 | a U+001C to U+001F character before the digits makes `int()` raise, though `strip()` counts it as whitespace |
| PyText.ParseIntSpaces | src/api/last_trips.py:130-131 | `int("\x1c5")` raises and `int(" 5\n")` is 5 |
| Sorting.ScanOrder | src/api/cars.py:42 | a scan without ORDER BY lists the ids in ascending order, exactly the stored ids |
| Sorting.SortDescCorrect | src/api/last_trips.py:46-48 | `ORDER BY … DESC` is a permutation of its input with non-increasing keys |
| Sorting.NewestFirst | src/api/last_trips.py:46-48 | the first row of `ORDER BY id DESC` has the largest id |
| Sorting.ByIdDesc | src/api/last_trips.py:57-58 | over distinct ids, `ORDER BY id DESC` lists them strictly decreasing, as a permutation |
| ChatApi.GenerateReply | src/api/chat.py:204-212 | greeting exactly when "hello", "hi" or "hey" occurs in the stripped, lowered text; otherwise prices iff both "car" and "price"; otherwise destinations iff "spot" or "destination"; always one of the four replies |
| ChatApi.HiInsideGreets | src/api/chat.py:206 | any word containing "hi" (such as "this") makes the reply the greeting, whatever else the message asks |
| ChatApi.ThisHoldsHi | src/api/chat.py:206 | "this" contains "hi" |
| ChatApi.LogRow | src/api/chat.py:98 | a history row has exactly the five selected columns |
| ChatApi.Limit | src/api/chat.py:98 | `LIMIT n` keeps the first n rows; a negative limit keeps all |
| ChatApi.Reverse | src/api/chat.py:101 | `reversed` lists the rows back to front |
| ChatApi.ByIdDescReverses | src/api/chat.py:98 | over ascending ids, `ORDER BY id DESC` is their reversal |
| ChatApi.RecentIdsSuffix | src/api/chat.py:97-101 | `history` selects the session's last `limit` rows (all of them for a negative limit) |
| ChatApi.RecentIdsIn | src/api/chat.py:97-99 | every selected row exists and belongs to the session |
| ChatApi.History | src/api/chat.py:95-101 | one dict per selected id, in that order; each is the `row_to_dict` of a stored row of the session |
| ChatApi.HistoryChronological | src/api/chat.py:95-101 | the history is in ascending id order, of that session only, and ends with the newest row when the limit is not 0 |
| ChatApi.Turns | src/api/chat.py:170-181 | only user and assistant rows become messages, never more than the rows |
| ChatApi.BuildHistory | src/api/chat.py:170-181 | the loop over the rows builds exactly the filtered turns, in order |
| ChatApi.Context | src/api/chat.py:191 | between 2 and 10 messages: the system prompt first, the current message last, user and assistant turns between |
| ChatApi.AiReply | src/api/chat.py:161-201 | the answer is at most 1200 characters, or the rule-based reply when the call raises; "" when the response has no choices or a `None` content |
| ChatApi.AiReplyCut | src/api/chat.py:199 | a returned answer is cut to its first 1200 characters |
| ChatApi.UserEmail | src/api/chat.py:47-53 | an e-mail only for a non-empty token found in sessions, and then that session's |
| ChatApi.Chat | src/api/chat.py:45-92 | exactly two rows are appended, user then assistant, with the same session and e-mail; the returned reply is the logged assistant message, computed after the user row was logged |
| ChatApi.ContextRepeatsMessage | src/api/chat.py:56-75 | as written, the context sent to the model ends with the current message twice |
| ChatApi.ContextLastTurn | src/api/chat.py:165-191 | when the newest of the recent rows is a user row, the message before the final one in the context is that row's message |
| ChatApi.ChatFixed | src/api/chat.py:45-92 | the same log sequence, with the reply computed from the log before the user row |
| ChatApi.FixedContextIsEarlier | src/api/chat.py:165-168 | in the corrected order the context holds only rows logged earlier |
| ChatWidget.PlanKeysDistinct | public/chat-widget.js:80-89 | eight questions with distinct keys |
| ChatWidget.PhoneRule | public/chat-widget.js:124 | a phone answer passes exactly when it has 6 to 15 characters, each a digit, space, '+' or '-' |
| ChatWidget.Rejection | public/chat-widget.js:124-126 | an answer is rejected exactly for a bad phone, a non-numeric budget, or days that are not a positive number |
| ChatWidget.SummaryLines | public/chat-widget.js:104-113 | the summary is a header then the eight answers in fixed order, "" for a missing one |
| ChatWidget.SummaryReadsBack | public/chat-widget.js:104-113 | the summary's lines are those nine lines |
| ChatWidget.AskNext | public/chat-widget.js:99-116 | asking keeps the planner well formed, and leaves the planner after the eighth answer |
| ChatWidget.Start | public/chat-widget.js:94-98 | starting enters the planner at step 0 with no answers |
| ChatWidget.Handle | public/chat-widget.js:118-130 | handling an input keeps the planner well formed (step below 8 while in the planner) |
| ChatWidget.AcceptedStep | public/chat-widget.js:127-129 | an accepted answer is stored under the current question's key and the planner moves to the next question, leaving the planner after the eighth |
| ChatWidget.CancelStoresNothing | public/chat-widget.js:119-120 | "cancel" in any case leaves the planner, stores nothing and keeps the step |
| ChatWidget.RejectedKeepsState | public/chat-widget.js:124-126 | a rejected answer leaves step and answers unchanged |
| ChatWidget.AcceptedAdvances | public/chat-widget.js:127-129 | an accepted answer is stored under the current key and the step advances by one |
| ChatWidget.Feed | public/chat-widget.js:118-130 | any sequence of inputs keeps the planner well formed |
| ChatWidget.FullRun | public/chat-widget.js:94-130 | eight accepted answers leave the planner at step 8 with each answer under its key |
| ChatWidget.Widget.constructor | public/chat-widget.js:90-92 | the widget starts outside the planner, at step 0, with no answers |
| ChatWidget.Widget.AppendMsg | public/chat-widget.js:68-77 | a bubble is appended and the planner state is untouched |
| ChatWidget.Widget.AskNextStep | public/chat-widget.js:99-116 | the variables become `AskNext`'s state and its messages are appended |
| ChatWidget.Widget.StartPlanner | public/chat-widget.js:94-98 | the variables become `Start`'s state and its messages are appended |
| ChatWidget.Widget.HandlePlannerInput | public/chat-widget.js:118-130 | the variables become `Handle`'s state and its messages are appended |
| ChatWidget.Widget.SendMessage | public/chat-widget.js:142-160 | blank input does nothing; in the planner the input goes to the planner and nothing is posted; otherwise the text is posted and the reply, or the fallback, is shown |
| ChatWidget.ShownReply | public/chat-widget.js:158-159 | a non-empty reply is shown as it is; otherwise a non-empty fallback |
| Migration.ColumnsOf | migrate_database.py:22-23 | `PRAGMA table_info` of a missing table lists no columns |
| Migration.CreateIfMissing | migrate_database.py:27-37 | `CREATE TABLE IF NOT EXISTS` adds an empty table only when the name is free and keeps every other table |
| Migration.InsertSelect | migrate_database.py:40-45 | `INSERT … SELECT` succeeds exactly when both tables exist and the columns named are there |
| Migration.CopyRows | migrate_database.py:40-45 | `INSERT … SELECT` copies one row per source row, in order, each built from the named source columns |
| Migration.Drop | migrate_database.py:47 | `DROP TABLE` succeeds exactly when the table exists, and removes it |
| Migration.Rename | migrate_database.py:48 | `RENAME TO` succeeds exactly when the source exists and the target is free, and moves the table |
| Migration.AddColumn | migrate_database.py:51 | `ADD COLUMN` succeeds exactly when the table exists and lacks the column |
| Migration.UsersRebuilt | migrate_database.py:25-49 | a users table with `username` is rebuilt with the new columns, row for row |
| Migration.UsersLeftoverKept | migrate_database.py:25-49 | with a `users_new` left over, the rebuilt `users` keeps that table's columns and stale rows followed by one copy per old row; the step raises when a copied column is missing from either table (key and UNIQUE clashes between stale rows and copies are not modelled) |
| Migration.UserCopy | migrate_database.py:42-43 | each copied user keeps id, email, password_hash and created_at, and has `full_name` NULL |
| Migration.FullNameAdded | migrate_database.py:50-52 | a users table with neither column gains `full_name`, NULL in every row |
| Migration.UsersAlreadyMigrated | migrate_database.py:53-54 | otherwise the users table is untouched |
| Migration.MissingUsersFails | migrate_database.py:50-51 | without a users table the ALTER raises and the migration fails |
| Migration.SessionsReplaced | migrate_database.py:57-80 | sessions with `user_id` and without `user_email` are replaced by an empty e-mail keyed table; otherwise kept |
| Migration.ChatLogsRebuilt | migrate_database.py:86-113 | such a chat_logs table is rebuilt with the new columns, row for row |
| Migration.ChatCopy | migrate_database.py:106-107 | each copied log row keeps session_id, role, message and created_at, and has `user_email` NULL |
| Migration.UsersStepKeeps | migrate_database.py:22-54 | the users step leaves users without `username` and with `full_name`, and every other table as it was |
| Migration.SessionsStepKeeps | migrate_database.py:57-80 | the sessions step leaves sessions no longer needing migration, and every other table as it was |
| Migration.ChatStepKeeps | migrate_database.py:83-115 | the chat_logs step leaves chat_logs no longer needing migration, and every other table as it was |
| Migration.MigrateReachesMigrated | migrate_database.py:22-115 | a successful run reaches the migrated layout and keeps every unrelated table |
| Migration.MigratedIsFixed | migrate_database.py:53-115 | on a migrated database every step takes its no-op branch |
| Migration.MigrateIdempotent | migrate_database.py:22-115 | running the migration again after success changes nothing |
| Migration.Connection.constructor | migrate_database.py:13-14 | the connection sees the file's tables |
| Migration.Connection.TableInfo | migrate_database.py:22-23 | reads the column names of a table |
| Migration.Connection.CreateTableIfNotExists | migrate_database.py:27-37 | applies `CreateIfMissing` to the tables |
| Migration.Connection.Copy | migrate_database.py:40-45 | applies `InsertSelect`, or reports the failure and changes nothing |
| Migration.Connection.DropTable | migrate_database.py:76 | `DROP TABLE [IF EXISTS]` fails only for a missing table without IF EXISTS |
| Migration.Connection.RenameTable | migrate_database.py:48 | applies `Rename`, or reports failure |
| Migration.Connection.AddTableColumn | migrate_database.py:51 | applies `AddColumn`, or reports failure |
| Migration.MigrateDatabase | migrate_database.py:10-133 | returns true exactly when every statement succeeds, and then the tables are `Migrate`'s result |
| Migration.RunScript | migrate_database.py:136-139 | exit status 0 exactly on success (with the migrated tables), 1 on failure |

## Left out

- HTTP routing, CORS, static files, the HTML page routes and the constant admin login in main.py are not part of this model. A handler's input arrives already parsed: a missing JSON key is `Absent`, a JSON `null` is `JsonNull`.
- SQL text, connections and cursors are not modelled. Tables are maps from id to row, held in objects that the handlers update. Two of the engine's `sqlite3` errors are modelled, each as a 500: a NOT NULL failure in `add_last_trip` and a duplicate token in `login_user`. Other binding and engine errors are not; the integer-width one is on its own line below.
- File I/O of the uploads (`makedirs`, `open`, `copyfileobj`) is left out. The `datetime.now()` suffix of each file is a parameter.
- bcrypt and `secrets.token_urlsafe` are parameters. The one property assumed of bcrypt is that verify accepts hash(password), and it is a precondition of `RegisteredUserCanLogIn` only.
- UsersApi.LoginUser: a token drawn twice is modelled as the insert's UNIQUE failure (500), not ruled out as improbable.
- The OpenAI client is a function parameter returning `Raised`, `NoChoices` or a choice's content. A database error inside `generate_ai_reply` is folded into `Raised`, since the same `except` catches it. The model name, temperature and token limit are not modelled.
- `submit_plan` (src/api/chat.py:104-158) is left out. It builds a WhatsApp URL with `urllib.parse.quote` and a float-formatted budget.
- Floats: `price_per_day` and `price` are opaque 64-bit values. `int()` of a float, which truncates, is not modelled, so such a value is `IntOther` and raises. A JSON number in `available` is falsy exactly when its digits before the exponent are all zero, so a literal that underflows to 0.0 (such as `1e-400`) counts as truthy here, which Python does not do.
- Integer width: `SqlInt` and every integer parameter are unbounded, but the `sqlite3` module raises OverflowError when it binds an integer outside -2^63 to 2^63-1, which the handler reports as a 500. None of the members below model that 500. LastTripsApi.AddLastTrip and LastTripsApi.UpdateLastTrip store an out-of-range `days` or `persons` (src/api/last_trips.py:130-131, :170, :173). CarsApi.AddCar and CarsApi.UpdateCar store an out-of-range `seats` (src/api/cars.py:70, :104). For an out-of-range path id, CarsApi.GetCar, SpotsApi.GetSpot and LastTripsApi.GetLastTrip answer 404, LastTripsApi.GetTripComments answers an empty list, and LastTripsApi.AddTripComment, LastTripsApi.AdminUpdateComment and LastTripsApi.AdminDeleteComment answer 404. CarsApi.UpdateCar, CarsApi.DeleteCar, SpotsApi.UpdateSpot, SpotsApi.DeleteSpot, LastTripsApi.UpdateLastTrip and LastTripsApi.DeleteLastTrip answer success without a write. ChatApi.History with an out-of-range `limit` (src/api/chat.py:98) returns every row of the session.
- PyText.ParseInt: `int()` of text accepts only ASCII digits here; Python also accepts other Unicode decimal digits.
- Json.Loads: JSON text holding a lone surrogate escape is rejected, because a Dafny `char` cannot hold one; Python would accept it. Numbers are kept as their lexeme.
- Sorting.ScanOrder: a SELECT without ORDER BY, such as the one at src/api/cars.py:42, is taken to return rows in ascending rowid order. That is how SQLite scans a rowid table, but SQLite does not promise it. `Db.AvailableIds` and the listings built on it depend on this.
- Timestamps are parameters. `ORDER BY datetime(created_at) DESC` sorts on a key function of the text, and ties keep the scan order. SQLite does not promise that order for ties.
- The cross-file schema mismatch is not reconciled: no single table layout serves both users.py and chat.py, and the model gives each file the layout it expects. On the layout `init_db` creates (src/db_ops.py:153-161), `chat_logs` has `user_id` and no `user_email` column, and `sessions` has `user_id` only. So `chat` fails with a 500 at its first statement when a token is given (src/api/chat.py:50), and otherwise at each INSERT of `user_email` (src/api/chat.py:58, :80). So do `history`'s SELECT of it (src/api/chat.py:98) and the left-out `submit_plan` (src/api/chat.py:109, :131). After migrate_database.py runs, `users` has no `username` column and `sessions` has `user_email` in place of `user_id`. From then on register (src/api/users.py:30, :36), login (src/api/users.py:45, :56) and `me` (src/api/users.py:70) fail with a 500. `DbOps.InitSchemaFresh` states the first layout and `Migration.MigrateReachesMigrated` the second. `UsersApi` keeps to the first and `ChatApi.Chat` and `ChatApi.History` to the second, taking their own token-to-e-mail map. These SQL errors are not modelled: each file's model succeeds where its own layout would.
- A request body that is not a JSON object, where `payload.get` would raise, is not modelled.
- The widget's `loadHistory`, `getSessionId` (`Math.random`, `Date.now`), `localStorage`, DOM and CSS are left out. The server call of `sendMessage` is a `ServerReply` parameter, so its asynchrony is not modelled. JavaScript `Number()` of an answer is abstracted as `NaN`, not positive, or positive.
- The planner summary's bullet character is written as in the source. The widget's bubble layout is not modelled.
- Migration: the state a failed run leaves behind is not modelled. `MigrateDatabase` says only that it returns false. Python's implicit transactions, the rollback and the autocommitted DDL decide that state.
- PyText.Lower: lowers only A–Z, U+0130 and U+212A (the Kelvin sign), which are the only characters whose lower-case forms contain ASCII letters. Every other non-ASCII letter, such as 'É' or 'Σ', is left unchanged. This is not Python's `str.lower` or JavaScript's `toLowerCase`. It gives the same answers for the one use the callers make of it: comparing or searching the lowered text for ASCII keywords (src/api/chat.py:205, and the widget's "cancel" test).
- Migration.MigrateIdempotent, Migration.MigrateReachesMigrated, Migration.UsersRebuilt, Migration.ChatLogsRebuilt, Migration.UsersStepKeeps, Migration.SessionsStepKeeps, Migration.ChatStepKeeps: each requires that no `users_new`, `sessions_new` or `chat_logs_new` table is left over, and `SessionsReplaced` assumes the same in its premise. Such a table can remain after a failed run whose DDL was already committed. It does not make the rename fail, because the old table is dropped before the rename. Instead `CREATE TABLE IF NOT EXISTS` keeps it, the copy appends to its stale rows (or raises when it lacks a copied column), and the rebuilt table keeps those rows and columns. `UsersLeftoverKept` proves this for `users`. The lemmas above do not cover that case.
- Migration: NOT NULL and UNIQUE violations during the copies are not modelled, nor are the column types and constraints. The copied chat_logs rows get new implicit ids, which are not tracked.
- Migration: the connect failure, where `conn` is unbound in the `except` block, and the progress prints are left out.

## Findings

| source | as written | input that shows it | evidently intended | confidence | as-written member | corrected member |
|---|---|---|---|---|---|---|
| src/api/last_trips.py:198-205 | `DELETE FROM last_trips` relies on the `ON DELETE CASCADE` declared at src/db_ops.py:187, but `_connect` (src/db_ops.py:15-18) never turns on `PRAGMA foreign_keys`, so SQLite does not cascade | trip 1 with comment 1; delete trip 1; comment 1 keeps `trip_id` 1, which matches no trip | deleting a trip also deletes its comments | high, not executed | LastTripsApi.DeleteLeavesOrphans | LastTripsApi.DeleteLastTripCascade |
| src/api/chat.py:56-75 | the user message is logged before `generate_ai_reply` reads the last 8 rows, and then it is appended again as the final message | any message m sent with an AI client: the context ends with ("user", m), ("user", m) | the current message appears once, after the earlier turns | high, not executed | ChatApi.ContextRepeatsMessage | ChatApi.ChatFixed |
