/**
 * The shuttle and location handlers of app/api/shuttles/shuttles.py. Route
 * segments and query-string ids are taken as integers (the database converts
 * them); the request body is a JSON object that the schema layer has already
 * validated.
 */
module ShuttlesApi {
  import opened Common
  import opened Values
  import opened Query
  import opened ShuttleModels
  import opened UserModels
  import opened UpdateEngine
  import opened Database

  /**
   * The guard chain shared by `switch_driver_mode` and `update_shuttle_location`:
   * the driver exists, is a driver account, the shuttle is an enabled shuttle
   * with that id, and it belongs to the driver. On success, the position of
   * that shuttle in its table.
   */
  function DriverGuard(users: seq<Record>, shuttles: seq<Record>, shuttleId: int, driverId: int): (r: Result<nat, Reason>)
    requires UserTable(users) && ShuttleTable(shuttles)
    ensures r.Ok? ==> r.value < |shuttles| && shuttles[r.value] in shuttles
  {
    match GetUser(users, Int(driverId))
    case None => Err(DriverNotFound)
    case Some(driver) =>
      if !IsDriver(driver) then Err(NotADriver)
      else
        match FirstMatch(shuttles, ActiveShuttleArgs(Int(shuttleId)))
        case None => Err(ShuttleNotFound)
        case Some(k) =>
          assert shuttles[k] in shuttles;
          if shuttles[k]["user_id"] != driver["user_id"] then Err(NotDrivenByDriver) else Ok(k)
  }

  /**
   * Each refusal of the guard chain arises exactly when its check is the first
   * to fail, and success finds the driver's own enabled shuttle.
   */
  lemma DriverGuardReasons(users: seq<Record>, shuttles: seq<Record>, shuttleId: int, driverId: int)
    requires UserTable(users) && ShuttleTable(shuttles)
    ensures var r := DriverGuard(users, shuttles, shuttleId, driverId);
            var driver := GetUser(users, Int(driverId));
            var shuttle := GetShuttleById(shuttles, Int(shuttleId));
            && (r == Err(DriverNotFound) <==> driver.None?)
            && (r == Err(NotADriver) <==> driver.Some? && !IsDriver(driver.value))
            && (r == Err(ShuttleNotFound) <==> driver.Some? && IsDriver(driver.value) && shuttle.None?)
            && (r == Err(NotDrivenByDriver) <==>
                  driver.Some? && IsDriver(driver.value) && shuttle.Some? && shuttle.value["user_id"] != driver.value["user_id"])
            && (r.Ok? <==>
                  driver.Some? && IsDriver(driver.value) && shuttle.Some? && shuttle.value["user_id"] == driver.value["user_id"])
            && (r.Ok? ==> shuttles[r.value] == shuttle.value)
  {
  }

  /** `True if current_mode is False else False`. */
  function ToggledMode(current: Value): (r: Value)
    ensures r.Bool?
    ensures r == Bool(true) <==> current == Bool(false)
  {
    if current == Bool(false) then Bool(true) else Bool(false)
  }

  /** The serialized rows of a list endpoint, in query order. */
  function SerializeShuttles(rows: seq<Record>): (r: seq<Value>)
    requires ShuttleTable(rows)
    ensures |r| == |rows|
    ensures forall i :: 0 <= i < |rows| ==> r[i] == Object(SerializeShuttle(rows[i]))
  {
    seq(|rows|, i requires 0 <= i < |rows| => Object(SerializeShuttle(rows[i])))
  }

  function SerializeLocations(rows: seq<Record>): (r: seq<Value>)
    requires LocationTable(rows)
    ensures |r| == |rows|
    ensures forall i :: 0 <= i < |rows| ==> r[i] == Object(SerializeLocation(rows[i]))
  {
    seq(|rows|, i requires 0 <= i < |rows| => Object(SerializeLocation(rows[i])))
  }

  /** `request.args.get('status') or StatusEnum.enabled`: an absent or empty status means enabled. */
  function StatusQuery(status: Option<string>): (v: Value)
    ensures Rendered(v) == Str(if status.None? || status.value == "" then "enabled" else status.value)
  {
    if status.None? || status.value == "" then EnabledStatus else Str(status.value)
  }

  /** The `query_args` that `get_all_shuttles` passes to `filter_by`. */
  function ShuttleQueryArgs(status: Option<string>, enRoute: Option<string>, userId: Option<int>): (args: map<string, Value>)
    ensures "status" in args && args["status"] == StatusQuery(status)
    ensures "en_route" in args <==> enRoute == Some("true") || enRoute == Some("false")
    ensures "en_route" in args ==> args["en_route"] == Bool(enRoute == Some("true"))
    ensures "user_id" in args <==> userId.Some?
    ensures "user_id" in args ==> args["user_id"] == Int(userId.value)
    ensures args.Keys <= {"status", "en_route", "user_id"}
  {
    var withStatus := map["status" := StatusQuery(status)];
    var withEnRoute :=
      if enRoute.Some? && enRoute.value in {"true", "false"}
      then withStatus["en_route" := Bool(enRoute.value == "true")] else withStatus;
    if userId.Some? then withEnRoute["user_id" := Int(userId.value)] else withEnRoute
  }

  /** The shuttles `get_all_shuttles` asks for. */
  predicate ShuttleSelected(x: Record, status: Option<string>, enRoute: Option<string>, userId: Option<int>)
    requires IsShuttle(x)
  {
    && Rendered(x["status"]) == Str(if status.None? || status.value == "" then "enabled" else status.value)
    && (enRoute == Some("true") ==> x["en_route"] == Bool(true))
    && (enRoute == Some("false") ==> x["en_route"] == Bool(false))
    && (userId.Some? ==> Rendered(x["user_id"]) == Int(userId.value))
  }

  /** The query arguments select exactly the requested shuttles. */
  lemma ShuttleQuerySelects(x: Record, status: Option<string>, enRoute: Option<string>, userId: Option<int>)
    requires IsShuttle(x)
    ensures Matches(x, ShuttleQueryArgs(status, enRoute, userId)) <==> ShuttleSelected(x, status, enRoute, userId)
  {
    var args := ShuttleQueryArgs(status, enRoute, userId);
    assert "status" in args && args["status"] == StatusQuery(status);
    if enRoute.Some? && enRoute.value in {"true", "false"} {
      assert "en_route" in args && args["en_route"] == Bool(enRoute.value == "true");
    }
    if userId.Some? {
      assert "user_id" in args && args["user_id"] == Int(userId.value);
    }
  }

  /** `en_route` restricts only when it is exactly `'true'` or `'false'`. */
  lemma EnRouteFiltersOnlyOnBooleans(status: Option<string>, enRoute: Option<string>, userId: Option<int>)
    requires enRoute != Some("true") && enRoute != Some("false")
    ensures ShuttleQueryArgs(status, enRoute, userId) == ShuttleQueryArgs(status, None, userId)
  {
  }

  /** `get_all_shuttles`: filters built key by key, then answered as a list or as an error. */
  method GetAllShuttles(shuttles: seq<Record>, status: Option<string>, enRoute: Option<string>, userId: Option<int>)
    returns (r: Response)
    requires ShuttleTable(shuttles)
    ensures r.Error? || r.Success?
    ensures r.Error? <==> forall x :: x in shuttles ==> !ShuttleSelected(x, status, enRoute, userId)
    ensures r.Error? ==> r == Error(500, NoShuttlesFound)
    ensures r.Success? ==> r.data == List(SerializeShuttles(Filtered(shuttles, ShuttleQueryArgs(status, enRoute, userId))))
    ensures r.Success? ==> forall x :: x in Filtered(shuttles, ShuttleQueryArgs(status, enRoute, userId)) ==>
                             x in shuttles && ShuttleSelected(x, status, enRoute, userId)
  {
    var queryArgs := map["status" := StatusQuery(status)];
    if enRoute.Some? && enRoute.value in {"true", "false"} {
      queryArgs := queryArgs["en_route" := Bool(enRoute.value == "true")];
    }
    if userId.Some? {
      queryArgs := queryArgs["user_id" := Int(userId.value)];
    }
    assert queryArgs == ShuttleQueryArgs(status, enRoute, userId);
    var found := Filtered(shuttles, queryArgs);
    forall x | x in shuttles ensures Matches(x, queryArgs) <==> ShuttleSelected(x, status, enRoute, userId) {
      ShuttleQuerySelects(x, status, enRoute, userId);
    }
    FilteredEmpty(shuttles, queryArgs);
    if |found| <= 0 {
      return Error(500, NoShuttlesFound);
    }
    r := Success(List(SerializeShuttles(found)));
  }

  /** The `query_args` of `get_all_locations`. */
  function LocationQueryArgs(status: Option<string>, locationType: Option<string>): (args: map<string, Value>)
    ensures "status" in args && args["status"] == StatusQuery(status)
    ensures "type" in args <==> locationType.Some?
    ensures "type" in args ==> args["type"] == Str(locationType.value)
    ensures args.Keys <= {"status", "type"}
  {
    var withStatus := map["status" := StatusQuery(status)];
    if locationType.Some? then withStatus["type" := Str(locationType.value)] else withStatus
  }

  /** The locations `get_all_locations` asks for. */
  predicate LocationSelected(x: Record, status: Option<string>, locationType: Option<string>)
    requires IsLocation(x)
  {
    && Rendered(x["status"]) == Str(if status.None? || status.value == "" then "enabled" else status.value)
    && (locationType.Some? ==> Rendered(x["type"]) == Str(locationType.value))
  }

  lemma LocationQuerySelects(x: Record, status: Option<string>, locationType: Option<string>)
    requires IsLocation(x)
    ensures Matches(x, LocationQueryArgs(status, locationType)) <==> LocationSelected(x, status, locationType)
  {
    var args := LocationQueryArgs(status, locationType);
    assert "status" in args && args["status"] == StatusQuery(status);
    if locationType.Some? {
      assert "type" in args && args["type"] == Str(locationType.value);
    }
  }

  /** `get_all_locations`. */
  method GetAllLocations(locations: seq<Record>, status: Option<string>, locationType: Option<string>)
    returns (r: Response)
    requires LocationTable(locations)
    ensures r.Error? || r.Success?
    ensures r.Error? <==> forall x :: x in locations ==> !LocationSelected(x, status, locationType)
    ensures r.Error? ==> r == Error(500, NoLocationsFound)
    ensures r.Success? ==> r.data == List(SerializeLocations(Filtered(locations, LocationQueryArgs(status, locationType))))
    ensures r.Success? ==> forall x :: x in Filtered(locations, LocationQueryArgs(status, locationType)) ==>
                             x in locations && LocationSelected(x, status, locationType)
  {
    var queryArgs := map["status" := StatusQuery(status)];
    if locationType.Some? {
      queryArgs := queryArgs["type" := Str(locationType.value)];
    }
    assert queryArgs == LocationQueryArgs(status, locationType);
    var found := Filtered(locations, queryArgs);
    forall x | x in locations ensures Matches(x, queryArgs) <==> LocationSelected(x, status, locationType) {
      LocationQuerySelects(x, status, locationType);
    }
    FilteredEmpty(locations, queryArgs);
    if |found| <= 0 {
      return Error(500, NoLocationsFound);
    }
    r := Success(List(SerializeLocations(found)));
  }

  /** `get_shuttle`: by id alone, whatever the status. */
  method GetShuttle(shuttles: seq<Record>, shuttleId: int) returns (r: Response)
    requires ShuttleTable(shuttles)
    ensures r.Error? || r.Body?
    ensures First(shuttles, map["id" := Int(shuttleId)]).None? <==> r == Error(400, ShuttleNotFound)
    ensures First(shuttles, map["id" := Int(shuttleId)]).Some? ==>
              r == Body(Object(SerializeShuttle(First(shuttles, map["id" := Int(shuttleId)]).value)))
    ensures r.Body? ==> exists x :: x in shuttles && Rendered(x["id"]) == Int(shuttleId) && r.data == Object(SerializeShuttle(x))
  {
    var shuttle := First(shuttles, map["id" := Int(shuttleId)]);
    if shuttle.None? {
      return Error(400, ShuttleNotFound);
    }
    var x := shuttle.value;
    assert Matches(x, map["id" := Int(shuttleId)]);
    r := Body(Object(SerializeShuttle(x)));
  }

  /** `get_location`. */
  method GetLocation(locations: seq<Record>, locationId: int) returns (r: Response)
    requires LocationTable(locations)
    ensures r.Error? || r.Body?
    ensures First(locations, map["id" := Int(locationId)]).None? <==> r == Error(400, LocationNotFound)
    ensures First(locations, map["id" := Int(locationId)]).Some? ==>
              r == Body(Object(SerializeLocation(First(locations, map["id" := Int(locationId)]).value)))
    ensures r.Body? ==> exists x :: x in locations && Rendered(x["id"]) == Int(locationId) && r.data == Object(SerializeLocation(x))
  {
    var location := First(locations, map["id" := Int(locationId)]);
    if location.None? {
      return Error(400, LocationNotFound);
    }
    var x := location.value;
    assert Matches(x, map["id" := Int(locationId)]);
    r := Body(Object(SerializeLocation(x)));
  }

  /** `create_shuttle`: the owner must exist; the new shuttle is appended with its defaults. */
  method CreateShuttle(db: Store, userId: int, body: map<string, Value>, now: int, newId: int) returns (r: Response)
    requires db.Valid()
    requires forall x :: x in db.shuttles ==> Rendered(x["id"]) != Int(newId)
    modifies db
    ensures db.Valid()
    ensures db.users == old(db.users) && db.locations == old(db.locations)
    ensures GetUser(old(db.users), Int(userId)).None? ==>
              r == Error(400, UserNotFound) && db.shuttles == old(db.shuttles)
    ensures GetUser(old(db.users), Int(userId)).Some? ==>
              var row := InsertedShuttle(NewShuttle(Int(userId), JsonGet(body, "size"), JsonGet(body, "brand"),
                                                    JsonGet(body, "ac"), JsonGet(body, "no_of_seats"), now), newId);
              && db.shuttles == old(db.shuttles) + [row]
              && r == Success(Object(SerializeShuttle(row)))
              && GetShuttleById(db.shuttles, Int(newId)) == Some(row)
  {
    var user := GetUser(db.users, Int(userId));
    if user.None? {
      return Error(400, UserNotFound);
    }
    var brand := JsonGet(body, "brand");
    var size := JsonGet(body, "size");
    var ac := JsonGet(body, "ac");
    var noOfSeats := JsonGet(body, "no_of_seats");
    var shuttle := NewShuttle(Int(userId), size, brand, ac, noOfSeats, now);
    var row := InsertedShuttle(shuttle, newId);
    CreatedShuttleIsActive(db.shuttles, shuttle, newId);
    db.InsertShuttle(row);
    r := Success(Object(SerializeShuttle(row)));
  }

  /** No two locations share a name. */
  ghost predicate LocationNamesUnique(locations: seq<Record>)
    requires LocationTable(locations)
  {
    forall i, j :: 0 <= i < j < |locations| && "name" in locations[i] && "name" in locations[j] ==>
      Rendered(locations[i]["name"]) != Rendered(locations[j]["name"])
  }

  /** Appending a location whose name no stored location has keeps names unique. */
  lemma FreshNameKeepsNamesUnique(locations: seq<Record>, row: Record)
    requires LocationTable(locations) && IsLocation(row)
    requires First(locations, map["name" := row["name"]]).None?
    ensures LocationTable(locations + [row])
    ensures LocationNamesUnique(locations) ==> LocationNamesUnique(locations + [row])
  {
    forall i | 0 <= i < |locations| ensures locations[i] in locations && Rendered(locations[i]["name"]) != Rendered(row["name"]) {
      assert locations[i] in locations && !Matches(locations[i], map["name" := row["name"]]);
    }
  }

  /** `add_location`: an existing name is refused; otherwise the location is appended. */
  method AddLocation(db: Store, body: map<string, Value>, now: int, newId: int) returns (r: Response)
    requires db.Valid()
    modifies db
    ensures db.Valid()
    ensures db.users == old(db.users) && db.shuttles == old(db.shuttles)
    ensures First(old(db.locations), map["name" := JsonGet(body, "name")]).Some? ==>
              r == Error(400, LocationExists) && db.locations == old(db.locations)
    ensures First(old(db.locations), map["name" := JsonGet(body, "name")]).None? ==>
              var row := InsertedLocation(NewLocation(JsonGet(body, "name"), JsonGet(body, "type"), JsonGet(body, "description"),
                                                      JsonGet(body, "latitude"), JsonGet(body, "longitude"), now), newId);
              && db.locations == old(db.locations) + [row]
              && r == Body(Object(SerializeLocation(row)))
    ensures LocationNamesUnique(old(db.locations)) ==> LocationNamesUnique(db.locations)
  {
    var name := JsonGet(body, "name");
    var locationType := JsonGet(body, "type");
    var description := JsonGet(body, "description");
    var latitude := JsonGet(body, "latitude");
    var longitude := JsonGet(body, "longitude");
    var existing := First(db.locations, map["name" := name]);
    if existing.Some? {
      return Error(400, LocationExists);
    }
    var row := InsertedLocation(NewLocation(name, locationType, description, latitude, longitude, now), newId);
    FreshNameKeepsNamesUnique(db.locations, row);
    db.InsertLocation(row);
    r := Body(Object(SerializeLocation(row)));
  }

  /** `update_shuttle`: found by id alone; updated with `['created']` as skip list. */
  method UpdateShuttle(db: Store, shuttleId: int, payload: Payload, toSnake: string -> string) returns (r: Response)
    requires db.Valid()
    modifies db
    ensures db.Valid()
    ensures db.users == old(db.users) && db.locations == old(db.locations)
    ensures FirstMatch(old(db.shuttles), map["id" := Int(shuttleId)]).None? ==>
              r == Error(400, ShuttleNotFound) && db.shuttles == old(db.shuttles)
    ensures FirstMatch(old(db.shuttles), map["id" := Int(shuttleId)]).Some? ==>
              var k := FirstMatch(old(db.shuttles), map["id" := Int(shuttleId)]).value;
              var row := UpdatedRecord(payload, old(db.shuttles)[k], ProtectedSkipList(["created"]), toSnake);
              && old(db.shuttles)[k] in old(db.shuttles)
              && db.shuttles == old(db.shuttles)[k := row]
              && row["created"] == old(db.shuttles)[k]["created"] && row["updated"] == old(db.shuttles)[k]["updated"]
              && r == Success(Object(SerializeShuttle(row)))
  {
    var k := FirstMatch(db.shuttles, map["id" := Int(shuttleId)]);
    if k.None? {
      return Error(400, ShuttleNotFound);
    }
    var shuttle := db.shuttles[k.value];
    assert shuttle in db.shuttles;
    var updated, _, _ := UpdateEntry(payload, shuttle, ["created"], toSnake);
    UpdateKeepsTimestamps(payload, shuttle, ["created"], toSnake);
    db.ReplaceShuttle(k.value, updated);
    r := Success(Object(SerializeShuttle(updated)));
  }

  /** `update_location`, with the empty skip list the default evidently stands for. */
  method UpdateLocation(db: Store, locationId: int, payload: Payload, toSnake: string -> string) returns (r: Response)
    requires db.Valid()
    modifies db
    ensures db.Valid()
    ensures db.users == old(db.users) && db.shuttles == old(db.shuttles)
    ensures FirstMatch(old(db.locations), map["id" := Int(locationId)]).None? ==>
              r == Error(400, LocationNotFound) && db.locations == old(db.locations)
    ensures FirstMatch(old(db.locations), map["id" := Int(locationId)]).Some? ==>
              var k := FirstMatch(old(db.locations), map["id" := Int(locationId)]).value;
              var row := UpdatedRecord(payload, old(db.locations)[k], ProtectedSkipList([]), toSnake);
              && old(db.locations)[k] in old(db.locations)
              && db.locations == old(db.locations)[k := row]
              && row["created"] == old(db.locations)[k]["created"] && row["updated"] == old(db.locations)[k]["updated"]
              && r == Success(Object(SerializeLocation(row)))
  {
    var k := FirstMatch(db.locations, map["id" := Int(locationId)]);
    if k.None? {
      return Error(400, LocationNotFound);
    }
    var location := db.locations[k.value];
    assert location in db.locations;
    var updated, _, _ := UpdateEntry(payload, location, [], toSnake);
    UpdateKeepsTimestamps(payload, location, [], toSnake);
    db.ReplaceLocation(k.value, updated);
    r := Success(Object(SerializeLocation(updated)));
  }

  /** `update_location` as written: the omitted skip list makes `update_entry` raise TypeError. */
  method UpdateLocationAsWritten(locations: seq<Record>, locationId: int, payload: Payload, toSnake: string -> string)
    returns (r: Response)
    requires LocationTable(locations)
    ensures FirstMatch(locations, map["id" := Int(locationId)]).None? ==> r == Error(400, LocationNotFound)
    ensures FirstMatch(locations, map["id" := Int(locationId)]).Some? ==> r == Uncaught(TypeError)
  {
    var k := FirstMatch(locations, map["id" := Int(locationId)]);
    if k.None? {
      return Error(400, LocationNotFound);
    }
    var outcome := UpdateEntryAsWritten(payload, locations[k.value], ListTypeObject, toSnake);
    r := Uncaught(outcome.error);
  }

  /** The shuttle after `switch_driver_mode`: `en_route` toggled, the position taken from `location`. */
  function DrivingShuttle(shuttle: Record, latitude: Value, longitude: Value): (after: Record)
    requires IsShuttle(shuttle)
    ensures IsShuttle(after)
    ensures after["en_route"].Bool?
    ensures after["en_route"] == Bool(true) <==> shuttle["en_route"] == Bool(false)
    ensures after["latitude"] == latitude && after["longitude"] == longitude
    ensures forall f :: f in shuttle && f !in {"en_route", "latitude", "longitude"} ==> after[f] == shuttle[f]
  {
    shuttle["en_route" := ToggledMode(shuttle["en_route"])]["latitude" := latitude]["longitude" := longitude]
  }

  /** The shuttle after `update_shuttle_location`: only the position changes. */
  function MovedShuttle(shuttle: Record, latitude: Value, longitude: Value): (after: Record)
    requires IsShuttle(shuttle)
    ensures IsShuttle(after)
    ensures after["latitude"] == latitude && after["longitude"] == longitude
    ensures forall f :: f in shuttle && f !in {"latitude", "longitude"} ==> after[f] == shuttle[f]
  {
    shuttle["longitude" := longitude]["latitude" := latitude]
  }

  /** Switching twice restores the mode, whatever it was, once it is a boolean. */
  lemma DrivingTwiceRestoresMode(shuttle: Record, latitude: Value, longitude: Value)
    requires IsShuttle(shuttle) && shuttle["en_route"].Bool?
    ensures DrivingShuttle(DrivingShuttle(shuttle, latitude, longitude), latitude, longitude)["en_route"] == shuttle["en_route"]
  {
  }

  /** `switch_driver_mode`: after the guards, toggles `en_route` and moves the shuttle to `location`. */
  method SwitchDriverMode(db: Store, shuttleId: int, driverId: int, body: map<string, Value>) returns (r: Response)
    requires db.Valid()
    requires "location" in body && body["location"].Object?
    requires "latitude" in body["location"].fields && "longitude" in body["location"].fields
    modifies db
    ensures db.Valid()
    ensures db.users == old(db.users) && db.locations == old(db.locations)
    ensures var guard := DriverGuard(old(db.users), old(db.shuttles), shuttleId, driverId);
            guard.Err? ==> r == Error(400, guard.error) && db.shuttles == old(db.shuttles)
    ensures var guard := DriverGuard(old(db.users), old(db.shuttles), shuttleId, driverId);
            guard.Ok? ==>
              var after := DrivingShuttle(old(db.shuttles)[guard.value],
                                          body["location"].fields["latitude"], body["location"].fields["longitude"]);
              && db.shuttles == old(db.shuttles)[guard.value := after]
              && r == Success(Object(SerializeShuttle(after)))
  {
    var guard := DriverGuard(db.users, db.shuttles, shuttleId, driverId);
    if guard.Err? {
      return Error(400, guard.error);
    }
    var k := guard.value;
    var currentLocation := body["location"].fields;
    var shuttle := DrivingShuttle(db.shuttles[k], currentLocation["latitude"], currentLocation["longitude"]);
    db.ReplaceShuttle(k, shuttle);
    r := Success(Object(SerializeShuttle(shuttle)));
  }

  /** `update_shuttle_location`: after the same guards, only the position changes. */
  method UpdateShuttleLocation(db: Store, shuttleId: int, driverId: int, body: map<string, Value>) returns (r: Response)
    requires db.Valid()
    modifies db
    ensures db.Valid()
    ensures db.users == old(db.users) && db.locations == old(db.locations)
    ensures var guard := DriverGuard(old(db.users), old(db.shuttles), shuttleId, driverId);
            guard.Err? ==> r == Error(400, guard.error) && db.shuttles == old(db.shuttles)
    ensures var guard := DriverGuard(old(db.users), old(db.shuttles), shuttleId, driverId);
            guard.Ok? ==>
              var after := MovedShuttle(old(db.shuttles)[guard.value], JsonGet(body, "latitude"), JsonGet(body, "longitude"));
              && db.shuttles == old(db.shuttles)[guard.value := after]
              && r == Success(Object(SerializeShuttle(after)))
  {
    var guard := DriverGuard(db.users, db.shuttles, shuttleId, driverId);
    if guard.Err? {
      return Error(400, guard.error);
    }
    var k := guard.value;
    var shuttle := MovedShuttle(db.shuttles[k], JsonGet(body, "latitude"), JsonGet(body, "longitude"));
    db.ReplaceShuttle(k, shuttle);
    r := Success(Object(SerializeShuttle(shuttle)));
  }

  /** The two refusals of `get_distance_matrix` before the mapping provider is called. */
  datatype DistanceQueryError = MissingOriginOrDestination | EmptyOriginOrDestination

  /** The origin/destination checks of `get_distance_matrix`. */
  function DistanceMatrixQuery(origin: Option<string>, destination: Option<string>): (r: Result<(string, string), DistanceQueryError>)
    ensures r == Err(MissingOriginOrDestination) <==> origin.None? || destination.None?
    ensures r == Err(EmptyOriginOrDestination) <==> origin.Some? && destination.Some? && (origin.value == "" || destination.value == "")
    ensures r.Ok? ==> r.value == (origin.value, destination.value) && r.value.0 != "" && r.value.1 != ""
  {
    if origin.None? || destination.None? then Err(MissingOriginOrDestination)
    else if origin.value == "" || destination.value == "" then Err(EmptyOriginOrDestination)
    else Ok((origin.value, destination.value))
  }
}
