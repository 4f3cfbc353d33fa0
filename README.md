# TransLink.lk bus tracking, modelled in Dafny

This project models the core of a bus-tracking app in Dafny. The app has
three groups of users:

- Drivers stream GPS samples from their phones.
- Passengers see the live buses and the nearest stops.
- Administrators manage the users.

Its centre is the backend's in-memory tracking engine, `GPSTrackingService`.
It stores three maps keyed by driver id:

- a registry of drivers;
- each driver's current location;
- a per-driver location history that keeps the newest 100 samples.

A fourth map, of web-socket connections, is left out. The live set (drivers
that are online, have a location and were seen in the last two minutes) is
not stored: it is recomputed on every read.

Around it sit the small algorithms of the app's screens:

- **Active buses:** the nearest-stop scan, the bus-to-route matching cascade and the "time since update" label.
- **Sign-up:** the form's validation chain, the registration payload and the route search box.
- **Authentication context:** the mock login that derives a user from an email, `register`, `logout` and the partial `updateUser` merge.
- **Admin users screen:** the user filter and its counts.
- **Nearby buses:** the route filter and the sort by distance.
- **Welcome screen:** the slide carousel.
- **Driver's tracking screen:** the running statistics and the "Xh Ym" time text.

One Dafny module per source file:

| module | file | models |
|---|---|---|
| `GpsTracking` | gps_tracking.dfy | backend/lib/gps-tracking.ts |
| `ActiveBuses` | active_buses.dfy | app/passenger/active-buses.tsx |
| `Register` | register.dfy | app/auth/register.tsx |
| `AuthContext` | auth_context.dfy | context/AuthContext.tsx |
| `AdminUsers` | admin_users.dfy | app/admin/users.tsx |
| `NearbyBuses` | nearby_buses.dfy | app/passenger/nearby-buses.tsx |
| `AuthWelcome` | auth_welcome.dfy | app/auth/index.tsx |
| `GpsTracker` | gps_tracker.dfy | app/driver/gps-tracker.tsx |
| `Options` | options.dfy | `null` / `undefined` as a missing value |
| `Text` | text.dfy | the JavaScript string operations the code relies on |
| `Seqs` | seqs.dfy | `Array.prototype.filter` |
| `JsNumber` | js_number.dfy | JavaScript's truncating `%` |

Conventions used throughout:

- **Clock.** `Date.now()` is the explicit parameter `now`, in milliseconds.
- **Distance.** The great-circle distance is a function-valued parameter. Only the selection logic around it is verified.
- **Map order.** A JavaScript `Map`'s insertion order is the sequence `order`. Setting an existing key keeps its place; deleting a key removes it.
- **Service state.** The service is a `class` whose methods update `order`, `drivers`, `locations` and `locationHistory` in place. They keep the invariant `Valid()`:
  - `order` lists each registered driver once;
  - each record sits under its own id;
  - locations and histories exist only for registered drivers;
  - no history is longer than 100;
  - a driver's `currentLocation`, when set, is its stored location;
  - the newest history entry is the stored location.
- **Screen state.** The screens' React state is modelled as small classes (`AuthState`, `Carousel`, `Tracker`). Their pure parts are functions.

Re-registering an existing driver id silently overwrites the record and keeps the id's place in the iteration order (backend/lib/gps-tracking.ts:83-94). `RegisterDriver` does the same.

## Model

| member | source | states |
|---|---|---|
| GpsTracking.GPSTrackingService.constructor | backend/lib/gps-tracking.ts:35-80 | The service starts with the three mock drivers, in order, online and seen now. It has no stored location and no history. |
| GpsTracking.GPSTrackingService.RegisterDriver | backend/lib/gps-tracking.ts:83-94 | The driver is stored offline, seen now, with no current location, and the given id is returned. The id's history is reset to empty. An existing id is overwritten in its old position. The stored location map is untouched. The invariant is kept. |
| GpsTracking.RegisterKeepsConsistent | backend/lib/gps-tracking.ts:83-94 | Registering keeps every part of the service invariant, including an overwrite that leaves a stale stored location behind. |
| GpsTracking.GPSTrackingService.AuthenticateDriver | backend/lib/gps-tracking.ts:97-107 | The first driver in insertion order whose phone and device id both match is returned, online and seen now, and written back. With no match the result is null and nothing changes. |
| GpsTracking.FirstWithCredentials | backend/lib/gps-tracking.ts:100-104 | The position found is the first in the list whose driver has both credentials. No earlier driver has them. The position is the list length when none do. |
| GpsTracking.GPSTrackingService.UpdateLocation | backend/lib/gps-tracking.ts:110-139 | An unregistered id returns false and changes no map. Otherwise the result is true, and the stored location and the driver's `currentLocation` both become the sample stamped with the driver id and `now`. `lastSeen` becomes `now`, and the sample is appended to the capped history (a missing history counts as empty). |
| GpsTracking.UpdateKeepsConsistent | backend/lib/gps-tracking.ts:110-139 | An update keeps every part of the service invariant. |
| GpsTracking.AppendCapped | backend/lib/gps-tracking.ts:129-134 | After the push and the shift the history ends with the new sample and stays within 100 entries when it started within them. |
| GpsTracking.AppendCappedFifo | backend/lib/gps-tracking.ts:129-134 | After an append the history ends with the new sample and has min(old + 1, 100) entries. Below capacity nothing is dropped. At capacity exactly the oldest entry is dropped. |
| GpsTracking.AppendCappedKeepsNewest | backend/lib/gps-tracking.ts:129-134 | Any run of appends to a history of at most 100 leaves exactly the newest 100 of all samples, oldest first. |
| GpsTracking.GPSTrackingService.GetActiveBusLocations | backend/lib/gps-tracking.ts:143-161 | The result is exactly the current locations of the drivers that are online, have a location and were seen less than 120000 ms before `now`, in driver insertion order. Nothing is changed. |
| GpsTracking.LiveLocationsMembership | backend/lib/gps-tracking.ts:143-161 | A sample is in the live set if and only if it is the current location of a live driver in the traversal. |
| GpsTracking.LiveLocations | backend/lib/gps-tracking.ts:143-161 | The live set over a list of driver ids is no longer than the list. Which samples it holds is stated by `LiveLocationsMembership`. |
| GpsTracking.GPSTrackingService.GetDriverLocation | backend/lib/gps-tracking.ts:164-166 | The result is the stored location when there is one and null otherwise. A stored location always carries its driver's id. |
| GpsTracking.GPSTrackingService.GetDriverByBusId | backend/lib/gps-tracking.ts:169-176 | The result is the first driver in insertion order assigned to the bus. It is null exactly when no driver drives that bus. |
| GpsTracking.FirstWithBus | backend/lib/gps-tracking.ts:170-174 | The position found is the first whose driver has the bus. No earlier driver has it. The position is the list length when none do. |
| GpsTracking.GPSTrackingService.GetLocationHistory | backend/lib/gps-tracking.ts:179-182 | The result is `slice(-limit)` of the history. An unknown driver gives an empty list. A positive limit gives the newest min(limit, length) entries in order. A limit of 0 gives the whole history. The result never exceeds 100 entries. |
| GpsTracking.GPSTrackingService.GetRecentHistory | backend/lib/gps-tracking.ts:179-182 | With the default limit of 50 the result is the newest min(50, length) entries, oldest first, and empty for an unknown driver. |
| GpsTracking.SliceFrom | backend/lib/gps-tracking.ts:181 | `slice(start)` of any start is a suffix of the history. |
| GpsTracking.HistorySliceCases | backend/lib/gps-tracking.ts:179-182 | `slice(-limit)` is the newest `limit` entries for a positive limit and the whole history for 0. For a negative limit it drops the first `-limit` entries. |
| GpsTracking.GPSTrackingService.MarkOffline | backend/lib/gps-tracking.ts:188-196 | The web-socket close handler's effect: a registered driver is marked offline. Nothing else changes. |
| GpsTracking.ValidateLocation | backend/lib/gps-tracking.ts:219-228 | An accepted sample has latitude in [-90, 90], longitude in [-180, 180] and an accuracy that is present and not negative. |
| GpsTracking.ValidateLocationExactly | backend/lib/gps-tracking.ts:219-228 | A complete sample is accepted if and only if its coordinates are in range and non-zero and its accuracy is not negative. Because the code tests truthiness, a sample at latitude 0 or longitude 0 is rejected. A sample with no accuracy is rejected. |
| GpsTracking.GPSTrackingService.GetAllDrivers | backend/lib/gps-tracking.ts:247-249 | The result lists every registered driver once, in insertion order, and nothing else. |
| GpsTracking.DistinctKeysCount | backend/lib/gps-tracking.ts:247-249 | A duplicate-free key list has as many entries as the map has drivers. |
| GpsTracking.GPSTrackingService.RemoveDriver | backend/lib/gps-tracking.ts:252-264 | The id is deleted from drivers, stored locations and histories, and from the iteration order. The result says whether the driver existed, so a second removal returns false. |
| GpsTracking.Without | backend/lib/gps-tracking.ts:256 | Deleting a key from the order keeps exactly the other keys. |
| GpsTracking.WithoutKeepsDistinct | backend/lib/gps-tracking.ts:256 | Deleting a key keeps the order duplicate-free. |
| GpsTracking.RemoveKeepsConsistent | backend/lib/gps-tracking.ts:252-264 | Removal keeps every part of the service invariant. |
| ActiveBuses.FindNearestStop | app/passenger/active-buses.tsx:201-226 | There is no result exactly when the stop list is missing or empty. Otherwise the stop returned is on the list. Its distance is the one reported and is no greater than any stop's. It is the earliest stop at that distance, because only a strictly closer stop replaces the current one. |
| ActiveBuses.BuildRouteMaps | app/passenger/active-buses.tsx:105-116 | The two maps are indexed by route number and by route id. Both are empty when no routes were fetched. |
| ActiveBuses.IndexByLastWins | app/passenger/active-buses.tsx:109-114 | A key is in the map if and only if some route has it. It maps to the last route with that key, so later routes overwrite earlier ones. |
| ActiveBuses.IndexByValues | app/passenger/active-buses.tsx:109-114 | Every map value is a fetched route carrying its key. |
| ActiveBuses.MatchRoute | app/passenger/active-buses.tsx:127-156 | A match is always one of the indexed routes. There is none exactly when none of the three keys (routeId by id, route-name digits by number, routeId by number) is indexed. |
| ActiveBuses.MatchRouteAgainstList | app/passenger/active-buses.tsx:127-156 | A matched route is a fetched route. It fits the bus's routeId, the leading digits of its route name as a route number, or its routeId as a route number. There is no match exactly when no fetched route fits any of the three. |
| ActiveBuses.MatchRoutePrefersId | app/passenger/active-buses.tsx:127-131 | When a route has the bus's (non-empty) routeId, the match is by id, ahead of the other two ways. |
| ActiveBuses.MatchRoutePrefersNameDigits | app/passenger/active-buses.tsx:133-144 | When no route has the bus's routeId, a route whose number is the route name's leading digits wins over the routeId read as a route number. |
| Text.LeadingDigits | app/passenger/active-buses.tsx:134 | The extracted prefix is made of digits and is no longer than the route name. |
| Text.LeadingDigitsMaximal | app/passenger/active-buses.tsx:134-136 | The extracted number is the longest run of digits starting the route name. It is empty exactly when the name does not start with a digit. |
| ActiveBuses.MatchBuses | app/passenger/active-buses.tsx:123-157 | There is one entry per bus, in bus order, each pairing the bus with the route the cascade matches. |
| ActiveBuses.TimeSinceUpdate | app/passenger/active-buses.tsx:228-236 | The label ends in the bucket's unit letter (s, m or h) and " ago". Once the clock is past the update time, what precedes the unit is decimal digits that read back as the bucket's amount. A clock behind the update time gives a label starting with '-'. |
| ActiveBuses.TimeSinceUpdateBuckets | app/passenger/active-buses.tsx:228-236 | The elapsed time s is floor(Δms / 1000). Under 60 the label is "Ns ago". Under 3600 it is floor(s/60) "m ago", a number from 1 to 59. Otherwise it is floor(s/3600) "h ago". The label's number reads back as that amount. |
| Text.NatToStringRoundTrip | app/passenger/active-buses.tsx:233-235 | The decimal text of a number reads back as the number and has no leading zero. |
| Text.IntToStringRoundTrip | app/passenger/active-buses.tsx:233-235 | An integer's text starts with '-' exactly when the integer is negative. The rest reads back as its magnitude. |
| Register.HandleRegister | app/auth/register.tsx:117-165 | The checks run in order: required fields, then role fields, then password match, then a length of at least 6 UTF-16 code units, as JavaScript's `length` counts. The first check that fails rejects with its message, and the registration is submitted exactly when all pass. The payload carries route and vehicle number only for a driver, and routeId and routeName only for a driver with a selected route. It carries the trimmed device id exactly when the device id is not all white space. |
| Register.PasswordLengthCountsCodeUnits | app/auth/register.tsx:142 | Three emoji outside the Basic Multilingual Plane make a password of length 6, while five ASCII letters are too short. |
| Text.Utf16Length | app/auth/register.tsx:142 | `length` counts each character above U+FFFF twice, so it lies between the number of characters and twice that number. |
| Text.Utf16LengthOfBmp | app/auth/register.tsx:142 | Within the Basic Multilingual Plane `length` is the number of characters. |
| Text.Trim | app/auth/register.tsx:163-164 | `trim` never lengthens a text and returns a text with no white space at either end as it is. |
| Text.TrimAllSpace | app/auth/register.tsx:163 | A string trims to the empty string exactly when it is all white space. |
| Text.TrimShape | app/auth/register.tsx:164 | `trim` removes a run of white space from each end and nothing else. |
| Register.FilterRoutes | app/auth/register.tsx:70-83 | The routes shown are no more than those offered, and each matches a non-empty query. |
| Register.FilterRoutesExactly | app/auth/register.tsx:70-83 | The empty-query shortcut agrees with the filter. A route is shown exactly when the lower-cased query occurs in its lower-cased number, name, start or end. The shown routes keep their order. |
| Text.ToLower | app/auth/register.tsx:74 | Lower-casing keeps the length, leaves no capital A-Z, turns each capital into its small letter and changes nothing else. |
| Text.ToLowerIdempotent | app/auth/register.tsx:74-80 | Lower-casing an already lower-cased text changes nothing. |
| Text.Includes | context/AuthContext.tsx:70-71 | A text includes only parts no longer than itself. |
| Text.IncludesAtOffset | context/AuthContext.tsx:70-71 | `includes` holds exactly when the part occurs at some offset. The empty string is included in every string. |
| AuthContext.LoginUser | context/AuthContext.tsx:66-73 | The login user has id "1", the given email and the modern UI mode. Its role is ADMIN if and only if the email contains "admin", and DRIVER if and only if it contains "driver" but not "admin". Its name is the text before the first '@' (the whole email without one) and contains no '@'. |
| AuthContext.RoleFromEmail | context/AuthContext.tsx:70-71 | The role is ADMIN exactly when the address contains "admin", and PASSENGER exactly when it contains neither "admin" nor "driver". |
| AuthContext.RolePrecedence | context/AuthContext.tsx:70-71 | For every address: "admin" beats "driver", an address containing "driver" is never a passenger's, and one with neither word is a passenger's. "admin.driver@x" is an admin's. |
| Text.BeforeFirst | context/AuthContext.tsx:69 | The result is the prefix before the first separator, or the whole text when there is none. |
| AuthContext.AuthState.Login | context/AuthContext.tsx:62-83 | After login the stored user is the login user and the context is authenticated. |
| AuthContext.RegisteredUser | context/AuthContext.tsx:89-95 | The new user copies email, name, role and phone and has no UI mode. Its id is decimal text that reads back as the registration time. |
| AuthContext.AuthState.Register | context/AuthContext.tsx:85-105 | After register the stored user is the registered user and the context is authenticated. |
| AuthContext.AuthState.Logout | context/AuthContext.tsx:107-114 | After logout there is no user and the context is not authenticated. |
| AuthContext.AuthState.IsAuthenticated | context/AuthContext.tsx:132 | The context is authenticated if and only if a user is stored. |
| AuthContext.AuthState.constructor | context/AuthContext.tsx:42 | The context starts with no user. |
| AuthContext.AuthState.UpdateUser | context/AuthContext.tsx:116-127 | With no user nothing changes. Otherwise the patch is merged into the user, and authentication is unchanged. |
| AuthContext.Merge | context/AuthContext.tsx:120 | The user comes out unchanged exactly when every key the patch supplies already holds that value. |
| AuthContext.MergeLaws | context/AuthContext.tsx:120 | An empty patch changes nothing, and a patch applied twice acts once. Two successive updates equal one update with the patches combined, later keys winning. |
| AuthContext.MergeChangesOnlyGiven | context/AuthContext.tsx:120 | For each of the eight fields (id, email, name, role, phone, avatar, assignedRoute, uiMode), a field supplied by the patch takes the patch's value, and a field not supplied keeps the user's. |
| AdminUsers.FilteredUsers | app/admin/users.tsx:75-80 | No more users are listed than given, and each listed user matches both the search and the chip. |
| AdminUsers.FilteredUsersExactly | app/admin/users.tsx:75-80 | A user is listed if and only if the name or the email contains the query ignoring case, and the chip is 'all' or the user's role. The list is an order-preserving subsequence of the users. An empty query with 'all' lists everyone. |
| Seqs.Filter | app/admin/users.tsx:75 | A filtered list is no longer than its input and holds only elements that pass. |
| Seqs.FilterMembership | app/admin/users.tsx:75-80 | An element is kept if and only if it is in the input and passes. |
| Seqs.FilterIsSubsequence | app/admin/users.tsx:75 | Filtering keeps the order of what it keeps. |
| AdminUsers.UserStats | app/admin/users.tsx:158-175 | The Active and Drivers counts never exceed Total Users, which never exceeds the number of users. |
| AdminUsers.DriverChipCountsAgree | app/admin/users.tsx:166-172 | Under the drivers chip the Drivers count equals Total Users. |
| AdminUsers.OtherChipsCountNoDrivers | app/admin/users.tsx:166-172 | Under the admins or passengers chip the Drivers count is 0. |
| NearbyBuses.FilterBuses | app/passenger/nearby-buses.tsx:112-115 | No more buses than given, and under a route filter every bus kept has that route number. |
| NearbyBuses.FilterBusesExactly | app/passenger/nearby-buses.tsx:112-115 | 'all' keeps the list as it is. Any other filter keeps exactly the buses with that route number, in their order. |
| NearbyBuses.SortByDistance | app/passenger/nearby-buses.tsx:117 | The sort neither adds nor drops a bus: the result is a permutation of its input. |
| NearbyBuses.SortByDistanceCorrect | app/passenger/nearby-buses.tsx:117 | The sorted list is ordered by non-decreasing distance and is a permutation of its input. |
| NearbyBuses.SortByDistanceStable | app/passenger/nearby-buses.tsx:117 | Buses at equal distance keep their relative order. |
| NearbyBuses.SortedBuses | app/passenger/nearby-buses.tsx:112-117 | The list shown is a permutation of the filtered buses. It is no longer than the screen's buses, and for 'all' it is a permutation of all of them. |
| NearbyBuses.SortedBusesCorrect | app/passenger/nearby-buses.tsx:112-117 | The screen's list is nearest first and is a permutation of the filtered buses. It holds exactly the buses of the chosen route, or every bus for 'all', with ties in list order. |
| JsNumber.JsRem | app/auth/index.tsx:46-50 | JavaScript's remainder lies strictly between -n and n. It has the sign of the dividend and equals Dafny's `%` on a non-negative dividend. |
| JsNumber.JsDivision | app/driver/gps-tracker.tsx:285 | Dividend = n × truncated quotient + JavaScript remainder. |
| AuthWelcome.NextIndex | app/auth/index.tsx:45-47 | On a slide index, forward moves to the next of the three slides, and from the last slide to slide 0. |
| AuthWelcome.PrevIndex | app/auth/index.tsx:49-51 | On a slide index, back moves to the previous slide, and from slide 0 to the last slide. |
| AuthWelcome.StepsStayInRange | app/auth/index.tsx:45-51 | Both steps keep the index in [0, 3) and wrap at either end. |
| AuthWelcome.StepsUndoEachOther | app/auth/index.tsx:45-51 | Back undoes forward and forward undoes back. |
| AuthWelcome.ForwardIsRotation | app/auth/index.tsx:46 | Pressing forward k times moves to slide (i + k) mod 3. |
| AuthWelcome.FullTurn | app/auth/index.tsx:18-47 | Three presses of forward on the three slides return to the starting slide. |
| AuthWelcome.Carousel.constructor | app/auth/index.tsx:42 | The carousel starts on slide 0. |
| AuthWelcome.Carousel.NextSlide | app/auth/index.tsx:45-47 | `nextSlide` steps the state forward and keeps it a slide index. |
| AuthWelcome.Carousel.PrevSlide | app/auth/index.tsx:49-51 | `prevSlide` steps the state back and keeps it a slide index. |
| GpsTracker.StatsAfter | app/driver/gps-tracker.tsx:267-273 | The shown speed becomes the sample's, and total distance and last update stay. The tracking time is now − session start, and 0 with no session or with a start time of 0, which `||` treats as missing. |
| GpsTracker.LatestSampleWins | app/driver/gps-tracker.tsx:267-273 | Only the latest sample counts, so the "average" speed is the last reading. The tracking time is not negative once the clock is past the start. |
| GpsTracker.Tracker.constructor | app/driver/gps-tracker.tsx:55-63 | The screen starts with zeroed stats and no session. |
| GpsTracker.Tracker.UpdateStats | app/driver/gps-tracker.tsx:267-273 | `updateStats` replaces the stats by their update for the sample and leaves the session alone. |
| GpsTracker.Minutes | app/driver/gps-tracker.tsx:285 | The minutes are in [0, 59] for a non-negative duration (in [-60, 0] for a negative one, from the truncating `%`). |
| GpsTracker.Hours | app/driver/gps-tracker.tsx:284 | The hours are the floor of ms / 3600000: h·3600000 ≤ ms < (h+1)·3600000, and h ≥ 0 for ms ≥ 0. |
| GpsTracker.FormatTimeSplitsDuration | app/driver/gps-tracker.tsx:283-287 | For ms ≥ 0, with hours h = floor(ms / 3600000) and minutes m: h·3600000 + m·60000 ≤ ms < h·3600000 + (m+1)·60000. |
| GpsTracker.FormatTime | app/driver/gps-tracker.tsx:283-287 | For ms ≥ 0 the text reads back as digits for the hours, "h ", digits for the minutes and a final "m". |
| GpsTracker.ClockTextReadsBack | app/driver/gps-tracker.tsx:286 | The "Xh Ym" text of any hours and minutes reads back as those numbers. |

## Left out

- WebSocket connections and `broadcastLocationUpdate` (backend/lib/gps-tracking.ts:185-211) are left out. They are a `ws` library callback and a console log. Only the close handler's effect on the driver is modelled, as `MarkOffline`.
- `generateDeviceId` and the screen's `getDeviceId` are left out: they use randomness, the clock and device storage.
- The great-circle distance (`calculateDistance`) is left out. It is floating-point trigonometry and is passed in as a function. Fares, ETAs and the m/s to km/h speed conversion of the tracking screen are left out for the same reason.
- Numbers are modelled as `real` and `int`. NaN, infinities and rounding are not. For example, `parseInt` of a bad `limit` in the HTTP layer, giving NaN, is not modelled. So is a `Date` parsed from an invalid `lastUpdate` string: `TimeSinceUpdate` takes both times as millisecond integers.
- `toLowerCase` is modelled for the ASCII letters only. Unicode case mapping is not modelled.
- The HTTP layer (backend/lib/gps-api.ts) is not part of this model. Neither are its routing, JSON parsing and status codes, nor its call to `validateLocation` before `updateLocation`.
- Device storage (AsyncStorage) in the authentication context and the tracking screen is not modelled, and neither are the `isLoading` flags. Only the in-memory user and stats are modelled.
- Concurrency is not modelled: the source is single-threaded.
- GpsTracking.GPSTrackingService.RegisterDriver: the caller's profile has no `currentLocation` field, because the HTTP layer never passes one. A record registered with one would keep it.
- GpsTracking.GPSTrackingService.AuthenticateDriver: records are values. The source hands out the same driver object it stores, so a caller's later mutation of the result would change the registry. That aliasing is not modelled. The same holds for `GetDriverByBusId` and `GetAllDrivers`.
- GpsTracking.GPSTrackingService.constructor: the three mock drivers are all seen at the same `now`. The source reads `Date.now()` once per driver (backend/lib/gps-tracking.ts:51, 62, 73), so the readings may differ by a millisecond.
- GpsTracking.GPSTrackingService.UpdateLocation: both `Date.now()` readings are the same `now`. The source reads the clock twice, so the two readings may differ by a millisecond.
- GpsTracker.StatsAfter: both `Date.now()` readings in `updateStats` are the same `now`, for the same reason.
- AuthContext.AuthState.UpdateUser: a patch can set an optional field to `undefined`. An explicit `undefined` for a required field (id, email, name, role) is not modelled.
- AuthContext.AuthState.Login: the password is ignored, as in the mock. The `catch` path that turns a storage failure into "Invalid credentials" is not modelled.
- Register.HandleRegister: the model stops at the payload handed to `register`. Navigation, alerts and the error path of `register` itself are not modelled.
- The rendering, styling and navigation of every screen are not modelled.
