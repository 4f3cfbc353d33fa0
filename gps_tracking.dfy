/** The in-memory driver/bus tracking engine of the backend: a registry of
    drivers keyed by driver id, the current location of each driver, and a
    per-driver location history capped at 100 entries. The clock
    (`Date.now()`) is the explicit parameter `now`, in milliseconds. */
module GpsTracking {
  import opened Options
  import opened Text

  /** Entries kept per driver by the location history. */
  const HistoryCapacity: nat := 100
  /** A driver with no update for this many milliseconds is not live. */
  const StaleAfterMs: int := 120000
  /** `getLocationHistory`'s default `limit`. */
  const DefaultHistoryLimit: int := 50

  datatype Status = Active | Idle | Offline

  /** A location as the driver submits it: everything but the driver id
      and the server-side timestamp. */
  datatype LocationInput = LocationInput(
    busId: string, routeId: string,
    latitude: real, longitude: real, heading: real, speed: real, accuracy: real,
    status: Status)

  /** A stored location sample. */
  datatype DriverLocation = DriverLocation(
    driverId: string, busId: string, routeId: string,
    latitude: real, longitude: real, heading: real, speed: real, accuracy: real,
    timestamp: int, status: Status)

  /** The fields a caller supplies to `registerDriver`. */
  datatype DriverProfile = DriverProfile(
    driverId: string, name: string, phone: string, licenseNumber: string,
    busId: string, routeId: string, deviceId: string)

  datatype RegisteredDriver = RegisteredDriver(
    driverId: string, name: string, phone: string, licenseNumber: string,
    busId: string, routeId: string, deviceId: string,
    isActive: bool, lastSeen: int, currentLocation: Option<DriverLocation>)

  // ---------------------------------------------------------------------------
  // Records built by the operations

  /** The record `registerDriver` stores: offline, seen now, no current location. */
  function NewDriver(p: DriverProfile, now: int): RegisteredDriver {
    RegisteredDriver(p.driverId, p.name, p.phone, p.licenseNumber, p.busId, p.routeId, p.deviceId,
                     false, now, None)
  }

  /** The full sample `updateLocation` stores: the driver's id, then the submitted fields, then the server time. */
  function Stamp(driverId: string, loc: LocationInput, now: int): DriverLocation {
    DriverLocation(driverId, loc.busId, loc.routeId, loc.latitude, loc.longitude,
                   loc.heading, loc.speed, loc.accuracy, now, loc.status)
  }

  predicate HasCredentials(d: RegisteredDriver, phone: string, deviceId: string) {
    d.phone == phone && d.deviceId == deviceId
  }

  /** Online, with a current location, and seen less than two minutes before `now`. */
  predicate IsLive(d: RegisteredDriver, now: int) {
    d.isActive && d.currentLocation.Some? && now - d.lastSeen < StaleAfterMs
  }

  // ---------------------------------------------------------------------------
  // Bounded history

  /** `history.push(l); if (history.length > 100) history.shift();` */
  function AppendCapped(h: seq<DriverLocation>, l: DriverLocation): (r: seq<DriverLocation>)
    ensures |r| > 0 && r[|r| - 1] == l
    ensures |h| <= HistoryCapacity ==> |r| <= HistoryCapacity
  {
    var pushed := h + [l];
    if |pushed| > HistoryCapacity then pushed[1..] else pushed
  }

  /** The newest `n` entries of `s`, oldest first. */
  function Newest<T>(s: seq<T>, n: nat): (r: seq<T>)
    ensures |r| == if |s| < n then |s| else n
  {
    if |s| <= n then s else s[|s| - n..]
  }

  /** Appending keeps at most 100 entries, ends with the new sample, and when
      full drops exactly the oldest entry. */
  lemma AppendCappedFifo(h: seq<DriverLocation>, l: DriverLocation)
    requires |h| <= HistoryCapacity
    ensures var r := AppendCapped(h, l);
      && |r| == (if |h| + 1 < HistoryCapacity then |h| + 1 else HistoryCapacity)
      && r[|r| - 1] == l
      && (|h| < HistoryCapacity ==> r == h + [l])
      && (|h| == HistoryCapacity ==> r == h[1..] + [l])
  {
  }

  /** Appending samples one by one to a history of at most 100 entries leaves
      exactly the newest 100 of everything appended so far. */
  lemma {:induction false} AppendCappedKeepsNewest(h: seq<DriverLocation>, ls: seq<DriverLocation>)
    requires |h| <= HistoryCapacity
    ensures AppendAll(h, ls) == Newest(h + ls, HistoryCapacity)
    decreases |ls|
  {
    if ls == [] {
      assert h + ls == h;
    } else {
      var h' := AppendCapped(h, ls[0]);
      AppendCappedKeepsNewest(h', ls[1..]);
      assert h + ls == (h + [ls[0]]) + ls[1..];
      var all := h + ls;
      if |h| + 1 <= HistoryCapacity {
        assert h' + ls[1..] == all;
      } else {
        assert h' == (h + [ls[0]])[1..];
        assert h' + ls[1..] == all[1..];
        assert Newest(all[1..], HistoryCapacity) == Newest(all, HistoryCapacity);
      }
    }
  }

  /** Appends `ls` in order, as repeated `updateLocation` calls do. */
  function AppendAll(h: seq<DriverLocation>, ls: seq<DriverLocation>): seq<DriverLocation>
    decreases |ls|
  {
    if ls == [] then h else AppendAll(AppendCapped(h, ls[0]), ls[1..])
  }

  // ---------------------------------------------------------------------------
  // History slicing

  /** JavaScript's `s.slice(start)`: a negative start counts from the end.
      Whatever the start, the result is a suffix of `s`. */
  function SliceFrom<T>(s: seq<T>, start: int): (r: seq<T>)
    ensures |r| <= |s| && r == s[|s| - |r|..]
  {
    if start < 0 then (if |s| + start < 0 then s else s[|s| + start..])
    else if start > |s| then []
    else s[start..]
  }

  /** `history.slice(-limit)`: the newest `limit` entries for a positive
      limit, the whole history for 0 (`slice(-0)` is `slice(0)`), and
      everything but the first `-limit` entries for a negative limit. */
  lemma HistorySliceCases(h: seq<DriverLocation>, limit: int)
    ensures limit > 0 ==> SliceFrom(h, -limit) == Newest(h, limit)
    ensures limit == 0 ==> SliceFrom(h, -limit) == h
    ensures limit < 0 ==> SliceFrom(h, -limit) == (if -limit > |h| then [] else h[-limit..])
  {
  }

  // ---------------------------------------------------------------------------
  // Ordered traversal of the drivers map

  predicate Distinct(ids: seq<string>) {
    forall i, j :: 0 <= i < j < |ids| ==> ids[i] != ids[j]
  }

  /** Every id in `ids` has a record. */
  predicate Covers(ids: seq<string>, ds: map<string, RegisteredDriver>) {
    forall i :: 0 <= i < |ids| ==> ids[i] in ds
  }

  /** The first position in `ids` whose driver has the given credentials, or `|ids|` when there is none. */
  function FirstWithCredentials(ids: seq<string>, ds: map<string, RegisteredDriver>, phone: string, deviceId: string): (k: nat)
    requires Covers(ids, ds)
    ensures k <= |ids|
    ensures k < |ids| ==> HasCredentials(ds[ids[k]], phone, deviceId)
    ensures forall j :: 0 <= j < k ==> !HasCredentials(ds[ids[j]], phone, deviceId)
    decreases |ids|
  {
    if ids == [] then 0
    else if HasCredentials(ds[ids[0]], phone, deviceId) then 0
    else 1 + FirstWithCredentials(ids[1..], ds, phone, deviceId)
  }

  /** The first position in `ids` whose driver drives `busId`, or `|ids|`. */
  function FirstWithBus(ids: seq<string>, ds: map<string, RegisteredDriver>, busId: string): (k: nat)
    requires Covers(ids, ds)
    ensures k <= |ids|
    ensures k < |ids| ==> ds[ids[k]].busId == busId
    ensures forall j :: 0 <= j < k ==> ds[ids[j]].busId != busId
    decreases |ids|
  {
    if ids == [] then 0
    else if ds[ids[0]].busId == busId then 0
    else 1 + FirstWithBus(ids[1..], ds, busId)
  }

  /** The current locations of the live drivers, in the order of `ids`:
      at most one per listed driver. */
  function LiveLocations(ids: seq<string>, ds: map<string, RegisteredDriver>, now: int): (r: seq<DriverLocation>)
    requires Covers(ids, ds)
    ensures |r| <= |ids|
    decreases |ids|
  {
    if ids == [] then []
    else
      var rest := LiveLocations(ids[..|ids| - 1], ds, now);
      var d := ds[ids[|ids| - 1]];
      if IsLive(d, now) then rest + [d.currentLocation.value] else rest
  }

  /** A sample is in the live set exactly when it is the current location of
      some live driver listed in `ids`. */
  lemma {:induction false} LiveLocationsMembership(ids: seq<string>, ds: map<string, RegisteredDriver>, now: int, l: DriverLocation)
    requires Covers(ids, ds)
    ensures l in LiveLocations(ids, ds, now) <==>
      exists i :: 0 <= i < |ids| && IsLive(ds[ids[i]], now) && ds[ids[i]].currentLocation == Some(l)
    decreases |ids|
  {
    if ids != [] {
      var init := ids[..|ids| - 1];
      LiveLocationsMembership(init, ds, now, l);
      if exists i :: 0 <= i < |ids| && IsLive(ds[ids[i]], now) && ds[ids[i]].currentLocation == Some(l) {
        var i :| 0 <= i < |ids| && IsLive(ds[ids[i]], now) && ds[ids[i]].currentLocation == Some(l);
        if i < |ids| - 1 {
          assert init[i] == ids[i];
        }
      }
    }
  }

  /** `ids` with `id` taken out, the others keeping their order. */
  function Without(ids: seq<string>, id: string): (r: seq<string>)
    ensures forall x :: x in r <==> x in ids && x != id
  {
    if ids == [] then []
    else if ids[0] == id then Without(ids[1..], id)
    else [ids[0]] + Without(ids[1..], id)
  }

  lemma {:induction false} WithoutKeepsDistinct(ids: seq<string>, id: string)
    requires Distinct(ids)
    ensures Distinct(Without(ids, id))
  {
    if ids != [] {
      WithoutKeepsDistinct(ids[1..], id);
      assert ids[0] !in ids[1..];
    }
  }

  /** A duplicate-free list of exactly the keys of a map is as long as the map. */
  lemma {:induction false} DistinctKeysCount(ids: seq<string>, ds: map<string, RegisteredDriver>)
    requires Distinct(ids)
    requires forall id :: id in ds <==> id in ids
    ensures |ids| == |ds|
    decreases |ids|
  {
    if ids == [] {
      assert ds.Keys == {};
    } else {
      var last := ids[|ids| - 1];
      var init := ids[..|ids| - 1];
      var rest := ds - {last};
      forall id ensures id in rest <==> id in init {
        if id in init {
          var k :| 0 <= k < |init| && init[k] == id;
          assert ids[k] == id;
        }
        if id in ids && id != last {
          var k :| 0 <= k < |ids| && ids[k] == id;
          assert k < |ids| - 1;
          assert init[k] == id;
        }
      }
      DistinctKeysCount(init, rest);
      assert last in ds;
      assert |rest| == |ds| - 1;
    }
  }

  // ---------------------------------------------------------------------------
  // The invariant of the service's four fields

  /** `order` lists each registered driver id once. */
  ghost predicate OrderListsDrivers(order: seq<string>, drivers: map<string, RegisteredDriver>) {
    Distinct(order) && forall id :: id in drivers <==> id in order
  }

  /** Each record sits under its own id, and locations exist only for registered drivers. */
  ghost predicate KeyedById(drivers: map<string, RegisteredDriver>, locations: map<string, DriverLocation>) {
    && (forall id :: id in drivers ==> drivers[id].driverId == id)
    && (forall id :: id in locations ==> id in drivers && locations[id].driverId == id)
  }

  /** Histories exist only for registered drivers and never exceed the capacity. */
  ghost predicate HistoriesBounded(drivers: map<string, RegisteredDriver>, history: map<string, seq<DriverLocation>>) {
    forall id :: id in history ==> id in drivers && |history[id]| <= HistoryCapacity
  }

  /** A driver's `currentLocation`, when set, is the location stored for it. */
  ghost predicate CurrentIsStored(drivers: map<string, RegisteredDriver>, locations: map<string, DriverLocation>) {
    forall id :: id in drivers && drivers[id].currentLocation.Some? ==>
      id in locations && drivers[id].currentLocation.value == locations[id]
  }

  /** The newest entry of a non-empty history is the location stored for that driver. */
  ghost predicate NewestIsStored(history: map<string, seq<DriverLocation>>, locations: map<string, DriverLocation>) {
    forall id :: id in history && |history[id]| > 0 ==>
      id in locations && history[id][|history[id]| - 1] == locations[id]
  }

  ghost predicate Consistent(order: seq<string>, drivers: map<string, RegisteredDriver>,
                             locations: map<string, DriverLocation>, history: map<string, seq<DriverLocation>>) {
    && OrderListsDrivers(order, drivers)
    && KeyedById(drivers, locations)
    && HistoriesBounded(drivers, history)
    && CurrentIsStored(drivers, locations)
    && NewestIsStored(history, locations)
  }

  lemma RegisterKeepsConsistent(order: seq<string>, drivers: map<string, RegisteredDriver>,
                                locations: map<string, DriverLocation>, history: map<string, seq<DriverLocation>>,
                                p: DriverProfile, now: int)
    requires Consistent(order, drivers, locations, history)
    ensures var id := p.driverId;
      Consistent(if id in drivers then order else order + [id], drivers[id := NewDriver(p, now)],
                 locations, history[id := []])
  {
    var id := p.driverId;
    var order' := if id in drivers then order else order + [id];
    var drivers' := drivers[id := NewDriver(p, now)];
    assert OrderListsDrivers(order', drivers') by {
      if id !in drivers {
        assert id !in order;
      }
      forall x ensures x in drivers' <==> x in order' {
        assert x in order' <==> x in order || x == id;
      }
    }
  }

  lemma UpdateKeepsConsistent(order: seq<string>, drivers: map<string, RegisteredDriver>,
                              locations: map<string, DriverLocation>, history: map<string, seq<DriverLocation>>,
                              driverId: string, full: DriverLocation, now: int)
    requires Consistent(order, drivers, locations, history)
    requires driverId in drivers && full.driverId == driverId
    ensures var h := if driverId in history then history[driverId] else [];
      Consistent(order,
                 drivers[driverId := drivers[driverId].(lastSeen := now, currentLocation := Some(full))],
                 locations[driverId := full],
                 history[driverId := AppendCapped(h, full)])
  {
  }

  lemma RemoveKeepsConsistent(order: seq<string>, drivers: map<string, RegisteredDriver>,
                              locations: map<string, DriverLocation>, history: map<string, seq<DriverLocation>>,
                              driverId: string)
    requires Consistent(order, drivers, locations, history)
    ensures Consistent(Without(order, driverId), drivers - {driverId}, locations - {driverId}, history - {driverId})
  {
    WithoutKeepsDistinct(order, driverId);
  }

  // ---------------------------------------------------------------------------
  // The service

  /** The record `authenticateDriver` writes back: online and seen now. */
  function SignedIn(d: RegisteredDriver, now: int): RegisteredDriver {
    d.(isActive := true, lastSeen := now)
  }

  /** The three drivers the constructor seeds, all online and seen at `now`. */
  function MockDrivers(now: int): seq<RegisteredDriver> {
    [ RegisteredDriver("driver_001", "Kamal Perera", "+94771234567", "DL001234",
                       "bus_138_01", "route_138", "device_android_001", true, now, None),
      RegisteredDriver("driver_002", "Sunil Silva", "+94771234568", "DL001235",
                       "bus_177_01", "route_177", "device_android_002", true, now, None),
      RegisteredDriver("driver_003", "Nimal Fernando", "+94771234569", "DL001236",
                       "bus_245_01", "route_245", "device_android_003", true, now, None) ]
  }

  class GPSTrackingService {
    /** The keys of `drivers` in JavaScript `Map` iteration order: first insertion first. */
    var order: seq<string>
    var drivers: map<string, RegisteredDriver>
    var locations: map<string, DriverLocation>
    var locationHistory: map<string, seq<DriverLocation>>

    ghost predicate Valid()
      reads this
    {
      Consistent(order, drivers, locations, locationHistory)
    }

    /** Seeds the three mock drivers, in order; no location or history yet. */
    constructor (now: int)
      ensures Valid()
      ensures order == ["driver_001", "driver_002", "driver_003"]
      ensures forall i :: 0 <= i < 3 ==> drivers[order[i]] == MockDrivers(now)[i]
      ensures locations == map[] && locationHistory == map[]
    {
      var mock := MockDrivers(now);
      var ids: seq<string> := [];
      var ds: map<string, RegisteredDriver> := map[];
      var i := 0;
      // mockDrivers.forEach(driver => this.drivers.set(driver.driverId, driver))
      while i < |mock|
        invariant 0 <= i <= |mock|
        invariant ids == seq(i, j requires 0 <= j < i => mock[j].driverId)
        invariant forall id :: id in ds <==> id in ids
        invariant forall j :: 0 <= j < i ==> mock[j].driverId in ds && ds[mock[j].driverId] == mock[j]
      {
        var d := mock[i];
        ds := ds[d.driverId := d];
        ids := ids + [d.driverId];
        i := i + 1;
      }
      order, drivers := ids, ds;
      locations := map[];
      locationHistory := map[];
    }

    /** Stores the driver offline and seen now, resets its history, and
        returns its id. An existing id is overwritten in place, keeping its
        position in the iteration order; its stored location is left as is. */
    method RegisterDriver(p: DriverProfile, now: int) returns (id: string)
      requires Valid()
      modifies this
      ensures Valid()
      ensures id == p.driverId
      ensures drivers == old(drivers)[id := NewDriver(p, now)]
      ensures order == if id in old(drivers) then old(order) else old(order) + [id]
      ensures locationHistory == old(locationHistory)[id := []]
      ensures locations == old(locations)
    {
      RegisterKeepsConsistent(order, drivers, locations, locationHistory, p, now);
      id := p.driverId;
      if id !in drivers {
        order := order + [id];
      }
      drivers := drivers[id := NewDriver(p, now)];
      locationHistory := locationHistory[id := []];
    }

    /** Scans the drivers in insertion order for the first whose phone and
        device id both match; that one goes online, seen now, and is
        returned. With no match nothing changes. */
    method AuthenticateDriver(phone: string, deviceId: string, now: int) returns (r: Option<RegisteredDriver>)
      requires Valid()
      modifies this
      ensures Valid()
      ensures var k := FirstWithCredentials(old(order), old(drivers), phone, deviceId);
        if k == |old(order)| then
          r == None && drivers == old(drivers)
        else
          && r == Some(SignedIn(old(drivers)[old(order)[k]], now))
          && drivers == old(drivers)[old(order)[k] := SignedIn(old(drivers)[old(order)[k]], now)]
      ensures r.Some? ==> HasCredentials(r.value, phone, deviceId) && r.value.isActive && r.value.lastSeen == now
      ensures order == old(order) && locations == old(locations) && locationHistory == old(locationHistory)
    {
      var i := 0;
      while i < |order|
        invariant 0 <= i <= |order|
        invariant forall j :: 0 <= j < i ==> !HasCredentials(drivers[order[j]], phone, deviceId)
      {
        var d := drivers[order[i]];
        if HasCredentials(d, phone, deviceId) {
          var signedIn := SignedIn(d, now);
          drivers := drivers[d.driverId := signedIn];
          return Some(signedIn);
        }
        i := i + 1;
      }
      return None;
    }

    /** Stores a new sample for a registered driver: the current location,
        the driver's `lastSeen` and `currentLocation`, and the capped
        history all take the stamped sample. An unknown driver changes
        nothing and yields false. No validation happens here. */
    method UpdateLocation(driverId: string, loc: LocationInput, now: int) returns (ok: bool)
      requires Valid()
      modifies this
      ensures Valid()
      ensures ok == (driverId in old(drivers))
      ensures !ok ==> drivers == old(drivers) && locations == old(locations) && locationHistory == old(locationHistory)
      ensures ok ==>
        var full := Stamp(driverId, loc, now);
        && locations == old(locations)[driverId := full]
        && drivers == old(drivers)[driverId := old(drivers)[driverId].(lastSeen := now, currentLocation := Some(full))]
        && locationHistory == old(locationHistory)[driverId :=
             AppendCapped(if driverId in old(locationHistory) then old(locationHistory)[driverId] else [], full)]
      ensures order == old(order)
    {
      if driverId !in drivers {
        return false;
      }
      var driver := drivers[driverId];
      var full := Stamp(driverId, loc, now);
      UpdateKeepsConsistent(order, drivers, locations, locationHistory, driverId, full, now);
      locations := locations[driverId := full];
      drivers := drivers[driverId := driver.(lastSeen := now, currentLocation := Some(full))];
      var history := if driverId in locationHistory then locationHistory[driverId] else [];
      history := history + [full];
      if |history| > HistoryCapacity {
        history := history[1..];
      }
      locationHistory := locationHistory[driverId := history];
      return true;
    }

    /** The current locations of the online, located drivers seen within the
        last two minutes, in driver insertion order. */
    method GetActiveBusLocations(now: int) returns (r: seq<DriverLocation>)
      requires Valid()
      ensures r == LiveLocations(order, drivers, now)
      ensures forall l :: l in r <==> exists id :: id in drivers && IsLive(drivers[id], now) && drivers[id].currentLocation == Some(l)
      ensures forall l :: l in r ==> l.driverId in drivers && IsLive(drivers[l.driverId], now)
    {
      r := [];
      var i := 0;
      while i < |order|
        invariant 0 <= i <= |order|
        invariant r == LiveLocations(order[..i], drivers, now)
      {
        assert order[..i + 1][..i] == order[..i];
        var d := drivers[order[i]];
        if d.isActive && d.currentLocation.Some? {
          if now - d.lastSeen < StaleAfterMs {
            r := r + [d.currentLocation.value];
          }
        }
        i := i + 1;
      }
      assert order[..i] == order;
      forall l ensures l in r <==> exists id :: id in drivers && IsLive(drivers[id], now) && drivers[id].currentLocation == Some(l) {
        LiveLocationsMembership(order, drivers, now, l);
        if exists id :: id in drivers && IsLive(drivers[id], now) && drivers[id].currentLocation == Some(l) {
          var id :| id in drivers && IsLive(drivers[id], now) && drivers[id].currentLocation == Some(l);
          var k :| 0 <= k < |order| && order[k] == id;
        }
      }
    }

    /** The stored location of a driver, if there is one. */
    method GetDriverLocation(driverId: string) returns (r: Option<DriverLocation>)
      requires Valid()
      ensures r.Some? <==> driverId in locations
      ensures r.Some? ==> r.value == locations[driverId] && r.value.driverId == driverId
    {
      if driverId in locations {
        r := Some(locations[driverId]);
      } else {
        r := None;
      }
    }

    /** The first driver, in insertion order, assigned to `busId`. */
    method GetDriverByBusId(busId: string) returns (r: Option<RegisteredDriver>)
      requires Valid()
      ensures var k := FirstWithBus(order, drivers, busId);
        r == if k == |order| then None else Some(drivers[order[k]])
      ensures r.None? <==> forall id :: id in drivers ==> drivers[id].busId != busId
    {
      var i := 0;
      while i < |order|
        invariant 0 <= i <= |order|
        invariant forall j :: 0 <= j < i ==> drivers[order[j]].busId != busId
      {
        if drivers[order[i]].busId == busId {
          return Some(drivers[order[i]]);
        }
        i := i + 1;
      }
      return None;
    }

    /** `history.slice(-limit)` of the driver's history, an unknown driver
        having an empty one. */
    method GetLocationHistory(driverId: string, limit: int) returns (r: seq<DriverLocation>)
      requires Valid()
      ensures var h := if driverId in locationHistory then locationHistory[driverId] else [];
        r == SliceFrom(h, -limit)
      ensures |r| <= HistoryCapacity
      ensures driverId !in locationHistory ==> r == []
      ensures limit > 0 && driverId in locationHistory ==>
        var h := locationHistory[driverId];
        |r| == (if |h| < limit then |h| else limit) && r == h[|h| - |r|..]
      ensures limit == 0 && driverId in locationHistory ==> r == locationHistory[driverId]
    {
      var history := if driverId in locationHistory then locationHistory[driverId] else [];
      r := SliceFrom(history, -limit);
    }

    /** `getLocationHistory(driverId)` with the default limit of 50: the
        newest 50 entries of the history (all of a shorter one), oldest
        first, and nothing for an unknown driver. */
    method GetRecentHistory(driverId: string) returns (r: seq<DriverLocation>)
      requires Valid()
      ensures driverId !in locationHistory ==> r == []
      ensures driverId in locationHistory ==> r == Newest(locationHistory[driverId], DefaultHistoryLimit as nat)
      ensures |r| <= DefaultHistoryLimit
    {
      r := GetLocationHistory(driverId, DefaultHistoryLimit);
      if driverId in locationHistory {
        HistorySliceCases(locationHistory[driverId], DefaultHistoryLimit);
      }
    }

    /** A snapshot of every registered driver in insertion order. */
    method GetAllDrivers() returns (r: seq<RegisteredDriver>)
      requires Valid()
      ensures |r| == |order| == |drivers|
      ensures forall i :: 0 <= i < |r| ==> r[i] == drivers[order[i]]
      ensures forall d :: d in r <==> d in drivers.Values
    {
      var ids, ds := order, drivers;
      r := seq(|ids|, i requires 0 <= i < |ids| => ds[ids[i]]);
      DistinctKeysCount(ids, ds);
      forall d ensures d in r <==> d in ds.Values {
        if d in ds.Values {
          var id :| id in ds && ds[id] == d;
          var k :| 0 <= k < |ids| && ids[k] == id;
          assert r[k] == d;
        }
      }
    }

    /** Deletes the driver, its stored location and its history; yields
        whether the driver existed. */
    method RemoveDriver(driverId: string) returns (removed: bool)
      requires Valid()
      modifies this
      ensures Valid()
      ensures removed == (driverId in old(drivers))
      ensures drivers == old(drivers) - {driverId} && driverId !in drivers
      ensures locations == old(locations) - {driverId}
      ensures locationHistory == old(locationHistory) - {driverId}
      ensures order == Without(old(order), driverId)
    {
      RemoveKeepsConsistent(order, drivers, locations, locationHistory, driverId);
      removed := driverId in drivers;
      drivers := drivers - {driverId};
      order := Without(order, driverId);
      locations := locations - {driverId};
      locationHistory := locationHistory - {driverId};
    }

    /** What the web-socket close handler does to the driver: marks it offline. */
    method MarkOffline(driverId: string)
      requires Valid()
      modifies this
      ensures Valid()
      ensures drivers == if driverId in old(drivers) then old(drivers)[driverId := old(drivers)[driverId].(isActive := false)] else old(drivers)
      ensures order == old(order) && locations == old(locations) && locationHistory == old(locationHistory)
    {
      if driverId in drivers {
        drivers := drivers[driverId := drivers[driverId].(isActive := false)];
      }
    }
  }

  // ---------------------------------------------------------------------------
  // Validation (done by the HTTP layer before `updateLocation`)

  /** JavaScript truthiness of an optional number: present and non-zero. */
  predicate Truthy(x: Option<real>) {
    x.Some? && x.value != 0.0
  }

  /** `validateLocation` on a partial sample: latitude and longitude present,
      non-zero and in range, accuracy present and non-negative. */
  function ValidateLocation(latitude: Option<real>, longitude: Option<real>, accuracy: Option<real>): (ok: bool)
    ensures ok ==> latitude.Some? && -90.0 <= latitude.value <= 90.0
    ensures ok ==> longitude.Some? && -180.0 <= longitude.value <= 180.0
    ensures ok ==> accuracy.Some? && accuracy.value >= 0.0
  {
    && Truthy(latitude) && Truthy(longitude)
    && -90.0 <= latitude.value <= 90.0
    && -180.0 <= longitude.value <= 180.0
    && accuracy.Some? && accuracy.value >= 0.0
  }

  /** The validator accepts a complete sample exactly when its coordinates are
      in range and non-zero and its accuracy is non-negative; in particular a
      sample on the equator or on the prime meridian is rejected. */
  lemma ValidateLocationExactly(lat: real, lon: real, acc: real)
    ensures ValidateLocation(Some(lat), Some(lon), Some(acc)) <==>
      (-90.0 <= lat <= 90.0 && lat != 0.0 && -180.0 <= lon <= 180.0 && lon != 0.0 && acc >= 0.0)
    ensures !ValidateLocation(Some(0.0), Some(lon), Some(acc))
    ensures !ValidateLocation(Some(lat), Some(0.0), Some(acc))
    ensures !ValidateLocation(Some(lat), Some(lon), None)
  {
  }
}
