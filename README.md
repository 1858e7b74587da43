# FleetFlow core in Dafny

FleetFlow is a small fleet-management application. It has an Express/Mongoose backend (vehicles, drivers, trips behind JWT authentication) and a React frontend of table-and-form pages. This project models the logic those files hold, which is mostly not rendering:

- **Trip Dispatcher page.** The `validate()` check of the Create Trip form, the payload `handleSubmit` posts, and the Dispatch/Complete action rule of a trip row.
- **Drivers, Vehicles, Maintenance and Expenses pages.** Which status actions a driver row offers, the forms `openAdd`/`openEdit` fill, the payloads saved (trimming, omitted optionals, `Number(x) || 0`), the out-of-service toggle, the vehicle list query, the "Mark Complete" rule, the In Shop/Available contract the maintenance page states in its copy, the reports fallback and the cost card.
- **Analytics page.** The text `downloadCSV` builds and the rows the Export CSV button gives it.
- **API client.** URL resolution, header merging with the stored Bearer token, turning a response into a value or a thrown error, and the request each endpoint helper makes.
- **Backend auth.** `register` and `login` over a user table, and the token gate middleware.
- **Backend schemas.** The Trip, Driver and Vehicle records: required paths, enums, defaults, and the unique indexes on licence and plate.

JavaScript semantics are modelled where the pages depend on them (module `Js`):

- `Number(string)` is an explicit decimal parser: trimmed, blank gives 0, optional sign, digits with an optional fraction, anything else NaN.
- `String` of an integer id is modelled, with the round trip `Number(String(n)) == n` proved.
- Truthiness, `??`, `typeof … === 'object'` and property lookup on JSON values are modelled.

The string built-ins (`trim`, `startsWith`, `slice`, `replace` with a string pattern, `join`/`split` with one character) are in module `Text`.

Several things are inputs rather than computed:

- **Stand-ins for what `api` reads.** `fetch` is replaced by the response it delivers, `localStorage` by the stored token, and `res.json()` by the parsed body, or none when it does not parse.
- **Library functions.** bcrypt's `hash`/`compare`, `jwt.sign`/`jwt.verify` and `JSON.stringify` are function-typed parameters. A thrown error of an awaited step is an input naming the step.
- **Dates.** The current date is a parameter.

Two classes model the imperative parts:

- `AuthController.UserTable` is the user collection, a map keyed by email with `Register`/`Login` methods.
- `AuthMiddleware.Exchange` is the request/response pair the gate mutates: `req.user`, the status sent and the calls of `next`.

`TripsPage.Validate` builds the error map step by step, as `validate()` does. `VehiclesPage.LoadParams` fills the query the same way. `ApiClient.BuildHeaders` sets the Authorization entry in place. Each of them is proved equal to a specification function whose properties are proved as lemmas.

Behaviours of the code worth noting, each modelled as written:

- Updates, dispatch and completion are `PATCH` requests (`frontend/src/api/client.js:35-60`).
- Opening a maintenance log puts the vehicle In Shop whatever its status, Retired included, as the page's copy states (`frontend/src/pages/Maintenance.jsx:63,104`).
- The vehicle page filters by "Out of Service", which the backend's status enum does not accept, and never offers "Retired" (`frontend/src/pages/Vehicles.jsx:153-157`, `backend/models/Vehicle.js:9`). `VehiclesPage.StatusFilterVersusSchema` states the mismatch. The two sides are kept as separate models.
- The Add Expense form holds `trip_id` and `vehicle_id` but renders no input for them (`frontend/src/pages/Expenses.jsx:83-85,228-245`). `ExpensesPage.ExpensesAreNeverLinked` proves that an expense entered through the page is always sent without either.

## Model

| member | source | states |
|---|---|---|
| TripsPage.StatusStepsMatchSchema | frontend/src/pages/Trips.jsx:11 | the page's status list is exactly the Trip schema's enum, in the schema's order |
| TripsPage.ErrorsFor | frontend/src/pages/Trips.jsx:72-77 | a key is present exactly for each failing check; the cargo entry carries the capacity message when cargo exceeds a matched vehicle's capacity, otherwise the weight message |
| TripsPage.PresenceErrors | frontend/src/pages/Trips.jsx:69-75 | origin/destination error iff the text is all white space; vehicle/driver error iff no available entry's id, as text, equals the form's |
| TripsPage.Validate | frontend/src/pages/Trips.jsx:65-79 | the method's error map is the specification's, and it returns true iff that map is empty |
| TripsPage.FillErrors | frontend/src/pages/Trips.jsx:72-77 | the six conditional assignments, in order, yield exactly the specified error map (later capacity message overwriting the weight message) |
| TripsPage.ErrorsForIs | frontend/src/pages/Trips.jsx:72-77 | any map with a key exactly for each failing field, holding that field's message, is the error map |
| TripsPage.BlankCargoRejected | frontend/src/pages/Trips.jsx:71-76 | an empty or blank cargo input coerces to 0 and is rejected |
| TripsPage.CapacityBoundary | frontend/src/pages/Trips.jsx:76-77 | cargo equal to the matched vehicle's capacity passes; cargo above it fails with the capacity message |
| TripsPage.RowActions | frontend/src/pages/Trips.jsx:136-141 | Dispatch offered iff Draft, Complete iff Dispatched, at most one action |
| TripsPage.TerminalRowsOfferNothing | frontend/src/pages/Trips.jsx:136-141 | over the schema's statuses, a row offers nothing iff it is Completed or Cancelled |
| TripsPage.Submit | frontend/src/pages/Trips.jsx:82-93 | create happens iff validation passes; the payload has the vehicle, driver and cargo through Number, origin/destination trimmed, and estimated_cost omitted iff its input is empty |
| TripsPage.SubmittedTripIsAdmissible | frontend/src/pages/Trips.jsx:84-91 | a submitted trip names an available vehicle and driver by id, has non-empty origin and destination, and positive cargo within the vehicle's capacity |
| DriversPage.ActionStatus | frontend/src/pages/Drivers.jsx:110-117 | Set On Duty, Set Off Duty and Suspend send the names of the schema statuses On Duty, Off Duty and Suspended, each accepted by the Driver enum; only Edit sends none |
| DriversPage.RowActions | frontend/src/pages/Drivers.jsx:109-117 | Edit always; Set On Duty iff not On Duty and licence not expired; Set Off Duty iff On Duty; Suspend iff not Suspended |
| DriversPage.OnAndOffExclusive | frontend/src/pages/Drivers.jsx:110-113 | Set On Duty and Set Off Duty are never offered together; an expired licence never gets Set On Duty |
| DriversPage.OfferedActionsChangeStatus | frontend/src/pages/Drivers.jsx:110-117 | every offered status button sends a status different from the row's |
| DriversPage.ActionsBySchemaStatus | frontend/src/pages/Drivers.jsx:110-117 | the exact button list for each of the schema's three driver statuses, with and without an expired licence |
| DriversPage.OpenEdit | frontend/src/pages/Drivers.jsx:48-57 | name and status copied; licence number or ''; expiry is the first 10 characters of the stored value (its date part), or '' when absent |
| DriversPage.AddModeKeepsStatus | frontend/src/pages/Drivers.jsx:185-198 | with the status select hidden (add mode), no sequence of form edits changes the status |
| DriversPage.Payload | frontend/src/pages/Drivers.jsx:62-67 | name trimmed; licence number trimmed and omitted iff blank; expiry and status as entered |
| DriversPage.NewDriversAreOffDuty | frontend/src/pages/Drivers.jsx:42-74 | a driver added through the form (openAdd, any edits, save with no row being edited) is always a create request with status Off Duty |
| DriversPage.EditUnchangedRoundTrip | frontend/src/pages/Drivers.jsx:48-74 | saving an unchanged edit form is an update of the row's own id that sends the row back as it was (trimmed texts, bare-date expiry) |
| DriversPage.ListParams | frontend/src/pages/Drivers.jsx:28 | the query holds q iff the search text is non-empty, and nothing else |
| VehiclesPage.StatusFilterVersusSchema | frontend/src/pages/Vehicles.jsx:153-157 | "Out of Service" is offered but rejected by the schema's enum; "Retired" is not offered; the other three options are schema statuses |
| VehiclesPage.LoadParams | frontend/src/pages/Vehicles.jsx:30-32 | q present iff non-empty, status present iff the filter is non-empty, each with its value, no other key |
| VehiclesPage.OpenEdit | frontend/src/pages/Vehicles.jsx:52-63 | texts copied; numbers as decimal text that parses back to them (missing odometer as "0"); checkbox iff the flag is truthy |
| VehiclesPage.Payload | frontend/src/pages/Vehicles.jsx:68-75 | the three texts trimmed; each number parsed, NaN or 0 sent as 0; the checkbox as is |
| VehiclesPage.BlankNumbersAreZero | frontend/src/pages/Vehicles.jsx:72-73 | blank capacity and odometer inputs are sent as 0 |
| VehiclesPage.EditUnchangedKeepsNumbers | frontend/src/pages/Vehicles.jsx:52-82 | saving an unchanged edit form sends the row's capacity and odometer (missing as 0) back, and its flag as a boolean |
| VehiclesPage.EditUnchangedKeepsTexts | frontend/src/pages/Vehicles.jsx:52-82 | saving an unchanged edit form sends trimmed texts back unchanged |
| VehiclesPage.ToggleTwiceRestores | frontend/src/pages/Vehicles.jsx:101-103 | the toggle request negates the flag's truth value, so toggling twice restores it (as a boolean), and toggling changes nothing else of the row |
| VehiclesPage.ToggleLabel | frontend/src/pages/Vehicles.jsx:124-126 | the button names the state the toggle leads to |
| MaintenancePage.Payload | frontend/src/pages/Maintenance.jsx:56-62 | vehicle id and cost through Number, service type trimmed, notes trimmed and omitted iff blank |
| MaintenancePage.UntouchedFormPayload | frontend/src/pages/Maintenance.jsx:42-62 | an untouched new form is sent as vehicle 0, cost 0, empty service type, no notes |
| MaintenancePage.CostCellOf | frontend/src/pages/Maintenance.jsx:85 | `v != null`: the cell is a dash iff the cost is null or absent, otherwise it shows the value |
| MaintenancePage.DashOnlyForMissingCost | frontend/src/pages/Maintenance.jsx:85 | a dash only stands for a falsy cost, but a cost of 0 or "" is shown as money: the test is for null, not truthiness |
| MaintenancePage.MarkCompleteOnOpenLogsOnly | frontend/src/pages/Maintenance.jsx:91-94 | when "Completed" is shown exactly for completed logs, Mark Complete is offered iff the log is open, completing it changes the fleet, and the log is completed afterwards |
| MaintenancePage.CompleteLogIdempotent | frontend/src/pages/Maintenance.jsx:74 | completing a log a second time, right after completing it, changes nothing |
| MaintenancePage.OpenLog | frontend/src/pages/Maintenance.jsx:63 | opening a log for a known vehicle adds the open log and sets the vehicle In Shop; an unknown vehicle fails |
| MaintenancePage.CompleteLog | frontend/src/pages/Maintenance.jsx:74 | completing a log marks it done and returns its vehicle to Available iff no other open log is about it |
| MaintenancePage.OpenLogKeepsConsistent | frontend/src/pages/Maintenance.jsx:104 | opening a log preserves "every open log's vehicle is In Shop" |
| MaintenancePage.CompleteLogKeepsConsistent | frontend/src/pages/Maintenance.jsx:104 | completing a log preserves "every open log's vehicle is In Shop" |
| MaintenancePage.CompleteOnlyLog | frontend/src/pages/Maintenance.jsx:74 | completing a vehicle's only open log makes it Available |
| MaintenancePage.CompleteOneOfTwo | frontend/src/pages/Maintenance.jsx:74 | completing one of two open logs of a vehicle leaves it In Shop |
| ExpensesPage.FuelPayloadOf | frontend/src/pages/Expenses.jsx:65-71 | trip_id omitted iff empty; vehicle_id always sent; numbers through Number; date as entered |
| ExpensesPage.FuelWithoutVehicleSendsZero | frontend/src/pages/Expenses.jsx:67 | a fuel log with no vehicle selected is sent with vehicle id 0 |
| ExpensesPage.UntouchedFuelFormPayload | frontend/src/pages/Expenses.jsx:124 | a freshly reset fuel form saved unchanged sends no trip, vehicle 0, zero liters and cost, and the given day |
| ExpensesPage.FuelTripOptions | frontend/src/pages/Expenses.jsx:206-208 | the trip select offers '' first, then each fetched trip's id as text, in order |
| ExpensesPage.TripOptionValues | frontend/src/pages/Expenses.jsx:208 | one option value per fetched trip, its id as text |
| ExpensesPage.FuelTripIsFetched | frontend/src/pages/Expenses.jsx:206-208 | any chosen option sends no trip or the id of one of the trips the page fetched |
| ExpensesPage.TrimmedOrOmitted | frontend/src/pages/Expenses.jsx:87-88 | `s.trim() \|\| undefined`: omitted iff blank, else the non-empty trim |
| ExpensesPage.ExpensePayloadOf | frontend/src/pages/Expenses.jsx:83-90 | trip and vehicle ids each omitted iff empty, independently; amount through Number; category and description trimmed or omitted |
| ExpensesPage.ExpenseEditsKeepLinks | frontend/src/pages/Expenses.jsx:228-245 | no sequence of edits through the rendered inputs changes the trip or vehicle id |
| ExpensesPage.ExpensesAreNeverLinked | frontend/src/pages/Expenses.jsx:83-85 | an expense entered through the page is always sent with neither trip nor vehicle |
| ExpensesPage.CardTileShowsEntry | frontend/src/pages/Expenses.jsx:146-150 | each tile of a shown card has the name of the entry at its position and its total when that is a non-zero number, 0 when missing, NaN or zero |
| ExpensesPage.Tiles | frontend/src/pages/Expenses.jsx:146 | one tile per entry, in order |
| ExpensesPage.CostCard | frontend/src/pages/Expenses.jsx:143-150 | the card is shown iff reports are loaded with a non-empty list; it shows min(n, 6) tiles of the first entries, in order |
| ExpensesPage.FailedReportsShowNoCard | frontend/src/pages/Expenses.jsx:44 | a failed reports fetch is replaced by empty lists, so no cost card is shown |
| AnalyticsPage.HeaderKeys | frontend/src/pages/Analytics.jsx:11 | a key is kept iff it is listed and its value is not of type object |
| AnalyticsPage.HeaderKeysAppend | frontend/src/pages/Analytics.jsx:11 | filtering keeps the order of the keys: the filter of a concatenation is the concatenation of the filters |
| AnalyticsPage.HeaderKeysOne | frontend/src/pages/Analytics.jsx:11 | a single key is kept iff its value is not of type object |
| AnalyticsPage.HeaderKeysDistinct | frontend/src/pages/Analytics.jsx:11 | distinct keys give distinct headers |
| AnalyticsPage.Headers | frontend/src/pages/Analytics.jsx:11 | the header holds exactly the first row's keys whose value is not of type object |
| AnalyticsPage.HeadersDistinct | frontend/src/pages/Analytics.jsx:11 | an object with distinct keys yields a header with no repeated column |
| AnalyticsPage.Fields | frontend/src/pages/Analytics.jsx:12 | one encoded value per header, in header order, null or undefined encoded as "" |
| AnalyticsPage.DataLines | frontend/src/pages/Analytics.jsx:12 | one comma-joined line per row, in order |
| AnalyticsPage.Csv | frontend/src/pages/Analytics.jsx:10-12 | no output iff the data is missing or empty |
| AnalyticsPage.HeaderLineHasNoNewline | frontend/src/pages/Analytics.jsx:11-12 | the header line has no newline when no key of the first row has one |
| AnalyticsPage.DataLinesHaveNoNewline | frontend/src/pages/Analytics.jsx:12 | no data line has a newline when no encoded value has one |
| AnalyticsPage.CsvLines | frontend/src/pages/Analytics.jsx:12 | splitting at newlines gives data.length + 1 lines: the header line, then each row's line |
| AnalyticsPage.LineFields | frontend/src/pages/Analytics.jsx:12 | a data line splits back into exactly one field per header, in order, when none of that row's encoded values has a comma |
| AnalyticsPage.ExportRow | frontend/src/pages/Analytics.jsx:81 | the exported row has keys name, license_plate, total_operational, in that order, with the entry's values |
| AnalyticsPage.ExportRows | frontend/src/pages/Analytics.jsx:81 | one exported row per entry, in order |
| AnalyticsPage.MissingTopCostRefusesExport | frontend/src/pages/Analytics.jsx:68-83 | Export CSV refuses iff the reports or their topCostVehicles list are missing or the list is empty |
| AnalyticsPage.Export | frontend/src/pages/Analytics.jsx:79-83 | export is refused iff the list is empty; otherwise the CSV of the projected rows as fleetflow-costs.csv |
| AnalyticsPage.ExportHeaders | frontend/src/pages/Analytics.jsx:11 | each exported column is kept iff the first entry's value for it is not of type object (a null total drops that column) |
| AnalyticsPage.ExportHeaderOrder | frontend/src/pages/Analytics.jsx:11 | the export's header is the surviving columns in the order name, license_plate, total_operational |
| AnalyticsPage.ExportLineCount | frontend/src/pages/Analytics.jsx:79-83 | an export of n entries has n + 1 lines |
| ApiClient.ResolveUrl | frontend/src/api/client.js:8 | a path starting with http is used unchanged; any other gets the /api prefix |
| ApiClient.EndpointPathsGoUnderApi | frontend/src/api/client.js:8 | a path starting with / is always put under /api, unchanged after the prefix |
| ApiClient.RequestHeaders | frontend/src/api/client.js:9-14 | Content-Type defaults to JSON unless the caller sets it; Authorization present iff a token is stored or the caller set one, the Bearer token winning; other caller headers unchanged |
| ApiClient.BuildHeaders | frontend/src/api/client.js:9-14 | building the headers in place yields exactly the specified headers |
| ApiClient.NoTokenKeepsCallerHeaders | frontend/src/api/client.js:9-14 | with no token stored, the caller's headers are sent as they are plus a default Content-Type |
| ApiClient.ErrorMessage | frontend/src/api/client.js:18 | data.error if truthy, else statusText if non-empty, else 'Request failed'; always truthy |
| ApiClient.HandleResponse | frontend/src/api/client.js:16-23 | OK 204 gives null, other OK gives the parsed body; non-OK throws with status, data ({} when unparseable) and the message chain, or a TypeError on a null body |
| ApiClient.UnparseableErrorBody | frontend/src/api/client.js:16-18 | a non-OK unparseable body throws with the status text (or 'Request failed') and {} as data |
| ApiClient.ServerErrorMessageWins | frontend/src/api/client.js:18 | a non-empty error in the body is the thrown message whatever the status text |
| ApiClient.RequestOf | frontend/src/api/client.js:26-77 | updates, dispatch and completions are PATCH to the record's path; login is POST /auth/login; reads are GET without body |
| ApiClient.IdHasNoSlash | frontend/src/api/client.js:33 | an id's decimal text contains no / |
| ApiClient.ActionPathParts | frontend/src/api/client.js:52-53 | an action path splits into collection, id and action, and the id text parses back to the id |
| ApiClient.ActionTarget | frontend/src/api/client.js:52-60 | the collections and actions of the record actions hold no / |
| ApiClient.ActionRequestsNameTheirRecord | frontend/src/api/client.js:52-60 | dispatch and completions are body-less PATCH requests whose path names the collection, the id and the action |
| AuthController.RegisterOutcome | backend/controllers/authController.js:7-25 | register either leaves the table unchanged or adds exactly the new user (with the hashed password) under a new email |
| AuthController.LoginOutcome | backend/controllers/authController.js:28-51 | a login succeeds only for a stored email whose hash matches the password |
| AuthController.DuplicateEmailRejected | backend/controllers/authController.js:12-13 | an existing email answers 400 "Email already exists" and stores nothing |
| AuthController.NewUserStoredHashed | backend/controllers/authController.js:16-21 | a new email is stored with the hash of the password and the role as sent, every other user kept, answering 201 |
| AuthController.RegisterFaultStoresNothing | backend/controllers/authController.js:22-24 | any failing awaited step answers 500 with the error's message and stores nothing |
| AuthController.SameErrorForUnknownAndWrong | backend/controllers/authController.js:33-38 | an unknown email and a wrong password get the identical 400 "Invalid credentials" |
| AuthController.LoginSignsIdAndRole | backend/controllers/authController.js:41-47 | a successful login signs {id, role} for 7 days and returns token, role and name |
| AuthController.LoginFaultIs500 | backend/controllers/authController.js:48-50 | any failing step reached during login answers 500 with the error's message |
| AuthController.RegisterThenLogin | backend/controllers/authController.js:16-47 | a user who has just registered logs in with the same password |
| AuthController.UserTable.constructor | backend/controllers/authController.js:1 | the collection starts empty and valid (every user under its own email), with the given hash, compare and sign |
| AuthController.UserTable.Register | backend/controllers/authController.js:7-25 | the method's reply and new table are the specified outcome, every user stays keyed by its email, and the id counter advances iff a user was stored |
| AuthController.UserTable.Login | backend/controllers/authController.js:28-51 | the method's reply is the specified login outcome and the table is untouched |
| AuthMiddleware.TokenOf | backend/middleware/auth.js:12 | the header with its first occurrence of "Bearer " cut out (wherever it occurs), the header unchanged when there is none; a prefixed header yields the text after the prefix |
| AuthMiddleware.GateDecision | backend/middleware/auth.js:4-18 | no (or empty) header: 401 "No token, access denied"; otherwise admitted iff the token verifies, with the decoded value, else "Token invalid" |
| AuthMiddleware.AdmittedOnlyWithVerifiedToken | backend/middleware/auth.js:11-17 | admission needs a header whose token verifies; a Bearer header has exactly the text after the prefix verified |
| AuthMiddleware.BareTokenIsVerified | backend/middleware/auth.js:12 | a header without "Bearer " is verified as it is |
| AuthMiddleware.Exchange.constructor | backend/middleware/auth.js:4 | a fresh exchange: no user, no response, next not called |
| AuthMiddleware.Exchange.Authenticate | backend/middleware/auth.js:4-18 | a refusal sends 401 with its message and leaves user and next alone; an admission sets user and calls next once without answering |
| AuthMiddleware.ExactlyOneOutcome | backend/middleware/auth.js:7-17 | each request gets exactly one of a 401 answer or a call of next |
| Schema.RequireString | backend/models/Trip.js:7-8 | a required String path fails exactly for a missing or empty value |
| Schema.RequirePresent | backend/models/Trip.js:4-6 | a required non-String path fails exactly when absent |
| Schema.CheckEnum | backend/models/Trip.js:11 | an enum path fails exactly for a given value outside the enum |
| TripModel.ParseTripStatus | backend/models/Trip.js:11 | exactly Draft, Dispatched, Completed and Cancelled are accepted, each as its own status |
| TripModel.TripErrors | backend/models/Trip.js:4-11 | vehicle, driver, cargoWeight, origin and destination are required; status must be in the enum; no other path fails |
| TripModel.CreateTrip | backend/models/Trip.js:3-12 | creation fails with every failing path, or stores the values with estimatedFuelCost and finalOdometer defaulting to 0 and status to Draft |
| TripModel.NewTripIsDraft | backend/models/Trip.js:9-11 | a trip given only its required fields is a Draft with zero fuel cost and odometer |
| DriverModel.ParseDriverStatus | backend/models/Driver.js:7 | exactly On Duty, Off Duty and Suspended are accepted |
| DriverModel.DriverErrors | backend/models/Driver.js:4-7 | name, license and licenseExpiry are required; status must be in the enum; no other path fails |
| DriverModel.CreateDriver | backend/models/Driver.js:3-11 | creation fails with every failing path, or stores the values with status Off Duty, safetyScore 100 and both counters 0 unless given |
| DriverModel.InsertDriver | backend/models/Driver.js:5 | insertion fails iff the licence is already stored, otherwise appends, preserving licence uniqueness |
| VehicleModel.ParseVehicleType | backend/models/Vehicle.js:6 | exactly Truck, Van and Bike are accepted |
| VehicleModel.ParseVehicleStatus | backend/models/Vehicle.js:9 | exactly Available, On Trip, In Shop and Retired are accepted |
| VehicleModel.VehicleStatusRoundTrip | backend/models/Vehicle.js:9 | every status name parses back to its status |
| VehicleModel.VehicleErrors | backend/models/Vehicle.js:4-9 | model, licensePlate and type fail `required` when missing or empty, capacity when missing; a given non-empty type and a given status must be in their enums; an empty type reports only Required; no other path fails |
| VehicleModel.EmptyTypeIsRequired | backend/models/Vehicle.js:6 | an empty type with every other required path given fails with Required on type only, not with an enum error |
| VehicleModel.CreateVehicle | backend/models/Vehicle.js:3-10 | creation fails with every failing path, or stores the values with odometer 0 and status Available unless given |
| VehicleModel.InsertVehicle | backend/models/Vehicle.js:5 | insertion fails iff the plate is already stored, otherwise appends, preserving plate uniqueness |
| Js.BlankIsZero | frontend/src/pages/Trips.jsx:71 | Number of an empty or blank string is 0 |
| Js.NumberOfString | frontend/src/pages/Trips.jsx:69-70 | Number(String(n)) == n for every integer id |
| Js.Find | frontend/src/pages/Trips.jsx:69-70 | find returns the first element satisfying the predicate, none iff no element does |
| Js.Lookup | frontend/src/pages/Analytics.jsx:12 | a property lookup returns the first matching property's value, undefined when absent |
| Js.Keys | frontend/src/pages/Analytics.jsx:11 | Object.keys lists each property's key, in order |
| Text.TrimEmptyIff | frontend/src/pages/Trips.jsx:72-73 | trim leaves nothing iff the text is all white space |
| Text.TrimIsSlice | frontend/src/pages/Trips.jsx:89-90 | trim's result is a slice of the input with only white space cut on each side |
| Text.TrimIdempotent | frontend/src/pages/Trips.jsx:89-90 | trimming twice is trimming once |
| Text.Take | frontend/src/pages/Drivers.jsx:53 | slice(0, n) is a prefix of length min(n, length) |
| Text.IndexOf | backend/middleware/auth.js:12 | the first position at which the pattern occurs, none iff it never occurs |
| Text.JoinAvoids | frontend/src/pages/Analytics.jsx:12 | a character in no element, other than the separator, is not in the join |
| Text.SplitJoin | frontend/src/pages/Analytics.jsx:12 | splitting a join gives the list back when no element holds the separator |

## Left out

- I/O. `fetch`, `localStorage`, `toast`, the Blob/`createObjectURL` download, `window.print` and `window.confirm` are not modelled. Responses, stored tokens and the user's choices are inputs.
- Rendering: React state, effects and components, `Login.jsx`, `Dashboard.jsx` and the UI components are not modelled.
- `handleDelete` (a confirm dialog followed by a DELETE request) is covered only through `ApiClient.RequestOf`.
- The `err.data?.error || err.message` toast chains after a failed save are not modelled, because they only choose a message to display.
- Concurrency: the `Promise.all` loads and the `cancelled` flags are not modelled. Each load is one input value.
- Clock and dates. `new Date()`, `Date.now`, date-fns `format` and the schemas' `timestamps` are not modelled. Today's date and the default licence expiry are parameters, and a licence expiry is an integer timestamp.
- `toFixed(2)` money formatting and the `${v} kg` and completion-rate cells are not modelled, because they are display only.
- Js.ToNumber: does not model exponents (`1e3`), hexadecimal, binary or octal literals, or `Infinity`, all of which it reads as NaN. It also does not model floating-point rounding: numbers are exact reals.
- Ids are modelled as integers, and numeric row fields read back through `String` are integers (`VehiclesPage.VehicleRow`).
- `JSON.stringify`, bcrypt's hash and compare, `jwt.sign` and `jwt.verify` are function-typed parameters, so their own behaviour (escaping, salts, expiry checking) is not modelled.
- ExpensesPage.FuelTripIsFetched: the page fetches trips with the query `status=Completed`; that the server returns only completed trips for it is not modelled, so the lemma speaks of the fetched trips only.
- Object keys: `Js.Keys` lists properties in the order they are held. JavaScript's ordering of integer-like keys before the others is not modelled.
- Text.Take: JavaScript's `slice` counts UTF-16 code units, while the model counts Unicode characters; they differ only for characters outside the Basic Multilingual Plane, which the date strings it cuts do not hold.
- `URLSearchParams` encoding is not modelled. `ApiClient.ListPath` takes the already-encoded query.
- Mongoose: documents are records. The schemas' ObjectId references are opaque strings; the ids the frontend rows carry and `AuthController.User.id` are integers standing for the ids the server assigns. Type casting of paths, `timestamps`, and the check that referenced vehicles and drivers exist are not modelled. The schema describes no such check.
- The `User` model file is not part of this model. `AuthController.User` holds the fields the controller reads and writes.
- `backend/server.js` and `backend/routes/auth.js` are not modelled, because they serve an unrelated notes API.
- The Expense and Maintenance schemas are not modelled, because they hold no rule. The Maintenance schema also has no status field, although the page reads one.
- The backend trip workflow (dispatch, complete, cancel, and the vehicle and driver status updates) is not modelled, because no such implementation exists in the repository. Only the frontend action rule and the Trip enum are modelled.
- The maintenance In Shop/Available rule is modelled as the contract the page's copy states. It has no backup in backend code.
- The stray code fence after line 18 of `backend/middleware/auth.js` is not modelled. Only lines 4-18 are.
- HTTP header names are compared case-sensitively in `ApiClient.RequestHeaders`, as JavaScript object keys are, so merging `authorization` with `Authorization` is not modelled.
- ApiClient.ErrorMessage: the thrown `Error`'s message is kept as the JavaScript value the chain selects. Its conversion to a string by `new Error` is not modelled.
