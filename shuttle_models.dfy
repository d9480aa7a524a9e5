/**
 * The Shuttle and Location models of app/models/shuttles.py: their columns,
 * constructors, insert-time column defaults, the active-shuttle lookup and the
 * two `serialize` properties.
 */
module ShuttleModels {
  import opened Common
  import opened Enums
  import opened Values
  import opened Query

  const ShuttleColumns: set<string> :=
    {"id", "user_id", "en_route", "longitude", "latitude", "size", "brand", "ac",
     "no_of_seats", "status", "created", "updated"}

  const LocationColumns: set<string> :=
    {"id", "name", "type", "description", "latitude", "longitude", "status", "created", "updated"}

  /** The keys of `Shuttle.serialize`. */
  const ShuttleSerializedKeys: set<string> :=
    {"shuttle_id", "brand", "user_id", "size", "ac", "en_route", "longitude", "latitude",
     "no_of_seats", "status", "created", "updated"}

  /** The keys of `Location.serialize`. */
  const LocationSerializedKeys: set<string> :=
    {"_id", "name", "description", "latitude", "longitude", "type", "created", "updated"}

  predicate IsShuttle(r: Record) { r.Keys == ShuttleColumns }

  predicate IsLocation(r: Record) { r.Keys == LocationColumns }

  predicate ShuttleTable(rows: seq<Record>) { forall x :: x in rows ==> IsShuttle(x) }

  predicate LocationTable(rows: seq<Record>) { forall x :: x in rows ==> IsLocation(x) }

  /** `StatusEnum.enabled`, the column default and the active-shuttle filter. */
  const EnabledStatus: Value := Enum(Status(ShuttleStatus.Enabled))

  /**
   * `Shuttle(user_id, size, brand, ac, no_of_seats)`: sets those five columns
   * and `created`; every other column is still unset.
   */
  function NewShuttle(userId: Value, size: Value, brand: Value, ac: Value, noOfSeats: Value, now: int): (s: Record)
    ensures IsShuttle(s)
    ensures s["user_id"] == userId && s["size"] == size && s["brand"] == brand
    ensures s["ac"] == ac && s["no_of_seats"] == noOfSeats && s["created"] == Time(now)
    ensures forall f :: f in s && f !in {"user_id", "size", "brand", "ac", "no_of_seats", "created"} ==> s[f] == Null
  {
    map["id" := Null, "user_id" := userId, "en_route" := Null, "longitude" := Null,
        "latitude" := Null, "size" := size, "brand" := brand, "ac" := ac,
        "no_of_seats" := noOfSeats, "status" := Null, "created" := Time(now), "updated" := Null]
  }

  /**
   * The row the INSERT stores, as it reads back after the commit: the
   * autoincrement key, the column defaults `en_route=False` and
   * `status=enabled` for the columns the constructor left unset, and the
   * `Enum` column `size` holding the member its wire string names.
   */
  function InsertedShuttle(s: Record, id: int): (row: Record)
    requires IsShuttle(s)
    ensures IsShuttle(row)
    ensures row["id"] == Int(id)
    ensures s["en_route"] == Null ==> row["en_route"] == Bool(false)
    ensures s["en_route"] != Null ==> row["en_route"] == s["en_route"]
    ensures s["status"] == Null ==> row["status"] == EnabledStatus
    ensures s["status"] != Null ==> row["status"] == s["status"]
    ensures row["size"] == SizeFromWire(s["size"])
    ensures forall f :: f in s && f !in {"id", "en_route", "status", "size"} ==> row[f] == s[f]
  {
    s["id" := Int(id)]
     ["en_route" := if s["en_route"] == Null then Bool(false) else s["en_route"]]
     ["status" := if s["status"] == Null then EnabledStatus else s["status"]]
     ["size" := SizeFromWire(s["size"])]
  }

  /**
   * A shuttle constructed with one of the size strings the creation schema
   * accepts reads back with enum members in both enum columns, and its
   * serialization repeats that string and says `enabled`.
   */
  lemma InsertedShuttleIsLoaded(s: Record, id: int, size: ShuttleSize)
    requires IsShuttle(s) && s["status"] == Null && s["size"] == Str(SizeValue(size))
    ensures LoadedShuttle(InsertedShuttle(s, id))
    ensures InsertedShuttle(s, id)["size"] == Enum(Size(size))
    ensures SerializeShuttle(InsertedShuttle(s, id))["size"] == s["size"]
    ensures SerializeShuttle(InsertedShuttle(s, id))["status"] == Str("enabled")
  {
    EnumRoundTrips(size, ShuttleStatus.Enabled, BusStop, UserStatus.Enabled, Driver);
  }

  /** `Location(name, type, description, latitude, longitude)`. */
  function NewLocation(name: Value, locationType: Value, description: Value, latitude: Value, longitude: Value, now: int): (l: Record)
    ensures IsLocation(l)
    ensures l["name"] == name && l["type"] == locationType && l["description"] == description
    ensures l["latitude"] == latitude && l["longitude"] == longitude && l["created"] == Time(now)
    ensures forall f :: f in l && f !in {"name", "type", "description", "latitude", "longitude", "created"} ==> l[f] == Null
  {
    map["id" := Null, "name" := name, "type" := locationType, "description" := description,
        "latitude" := latitude, "longitude" := longitude, "status" := Null,
        "created" := Time(now), "updated" := Null]
  }

  /**
   * The stored location as it reads back: the autoincrement key, the
   * `status=enabled` default, and the `Enum` column `type` holding the member
   * its wire string names.
   */
  function InsertedLocation(l: Record, id: int): (row: Record)
    requires IsLocation(l)
    ensures IsLocation(row)
    ensures row["id"] == Int(id)
    ensures l["status"] == Null ==> row["status"] == EnabledStatus
    ensures l["status"] != Null ==> row["status"] == l["status"]
    ensures row["type"] == LocationTypeFromWire(l["type"])
    ensures forall f :: f in l && f !in {"id", "status", "type"} ==> row[f] == l[f]
  {
    l["id" := Int(id)]
     ["status" := if l["status"] == Null then EnabledStatus else l["status"]]
     ["type" := LocationTypeFromWire(l["type"])]
  }

  /** A location constructed with a type string the schema accepts reads back with that member, and serializes to the string. */
  lemma InsertedLocationRendersType(l: Record, id: int, locationType: LocationType)
    requires IsLocation(l) && l["type"] == Str(LocationTypeValue(locationType))
    ensures InsertedLocation(l, id)["type"] == Enum(LocType(locationType))
    ensures SerializeLocation(InsertedLocation(l, id))["type"] == l["type"]
  {
    EnumRoundTrips(Small, ShuttleStatus.Enabled, locationType, UserStatus.Enabled, Driver);
  }

  /** The filter of `get_shuttle_by_id`: this id, and enabled. */
  function ActiveShuttleArgs(shuttleId: Value): map<string, Value>
  {
    map["id" := shuttleId, "status" := EnabledStatus]
  }

  /** The filter keeps exactly the shuttles with that id whose status renders as `enabled`. */
  lemma ActiveShuttleArgsSelect(x: Record, shuttleId: Value)
    requires IsShuttle(x)
    ensures Matches(x, ActiveShuttleArgs(shuttleId)) <==>
              Rendered(x["id"]) == Rendered(shuttleId) && Rendered(x["status"]) == Str("enabled")
  {
    var args := ActiveShuttleArgs(shuttleId);
    assert "id" in args && "status" in args;
  }

  /** `Shuttle.get_shuttle_by_id`: the first row with this id whose status is enabled. */
  function GetShuttleById(shuttles: seq<Record>, shuttleId: Value): (r: Option<Record>)
    requires ShuttleTable(shuttles)
    ensures r.Some? ==> r.value in shuttles
    ensures r.Some? ==> Rendered(r.value["id"]) == Rendered(shuttleId) && Rendered(r.value["status"]) == Str("enabled")
    ensures r.None? <==> forall x :: x in shuttles ==>
              Rendered(x["id"]) != Rendered(shuttleId) || Rendered(x["status"]) != Str("enabled")
  {
    First(shuttles, ActiveShuttleArgs(shuttleId))
  }

  /** `Shuttle.serialize`: every column, `id` as `shuttle_id`, the enums as their values. */
  function SerializeShuttle(s: Record): (out: map<string, Value>)
    requires IsShuttle(s)
    ensures out.Keys == ShuttleSerializedKeys
  {
    map["shuttle_id" := s["id"], "brand" := s["brand"], "user_id" := s["user_id"],
        "size" := Rendered(s["size"]), "ac" := s["ac"], "en_route" := s["en_route"],
        "longitude" := s["longitude"], "latitude" := s["latitude"],
        "no_of_seats" := s["no_of_seats"], "status" := Rendered(s["status"]),
        "created" := s["created"], "updated" := s["updated"]]
  }

  /** `Location.serialize`: `id` as `_id`, `type` as its value, and no `status`. */
  function SerializeLocation(l: Record): (out: map<string, Value>)
    requires IsLocation(l)
    ensures out.Keys == LocationSerializedKeys
  {
    map["_id" := l["id"], "name" := l["name"], "description" := l["description"],
        "latitude" := l["latitude"], "longitude" := l["longitude"],
        "type" := Rendered(l["type"]), "created" := l["created"], "updated" := l["updated"]]
  }

  /** A shuttle as the ORM loads it: its enum columns hold members of their enums. */
  predicate LoadedShuttle(s: Record)
  {
    && IsShuttle(s)
    && s["size"].Enum? && s["size"].member.Size?
    && s["status"].Enum? && s["status"].member.Status?
  }

  /** A serialized `size` looked up again: a known wire string becomes its member, anything else stays. */
  function SizeFromWire(v: Value): (r: Value)
    ensures v.Str? && ParseSize(v.s).Some? ==> r.Enum? && r.member.Size? && Str(SizeValue(r.member.size)) == v
    ensures !(v.Str? && ParseSize(v.s).Some?) ==> r == v
  {
    if v.Str? && ParseSize(v.s).Some? then Enum(Size(ParseSize(v.s).value)) else v
  }

  /** A serialized `status` looked up again. */
  function StatusFromWire(v: Value): (r: Value)
    ensures v.Str? && ParseStatus(v.s).Some? ==> r.Enum? && r.member.Status? && Str(StatusValue(r.member.status)) == v
    ensures !(v.Str? && ParseStatus(v.s).Some?) ==> r == v
  {
    if v.Str? && ParseStatus(v.s).Some? then Enum(Status(ParseStatus(v.s).value)) else v
  }

  /** A `type` string looked up again: a known wire string becomes its member, anything else stays. */
  function LocationTypeFromWire(v: Value): (r: Value)
    ensures v.Str? && ParseLocationType(v.s).Some? ==>
              r.Enum? && r.member.LocType? && Str(LocationTypeValue(r.member.locationType)) == v
    ensures !(v.Str? && ParseLocationType(v.s).Some?) ==> r == v
  {
    if v.Str? && ParseLocationType(v.s).Some? then Enum(LocType(ParseLocationType(v.s).value)) else v
  }

  /** Reads a serialized shuttle back into a row, looking the enum values up again. */
  function ShuttleFromSerialized(out: map<string, Value>): (s: Record)
    requires out.Keys == ShuttleSerializedKeys
    ensures IsShuttle(s)
  {
    map["id" := out["shuttle_id"], "user_id" := out["user_id"], "en_route" := out["en_route"],
        "longitude" := out["longitude"], "latitude" := out["latitude"],
        "size" := SizeFromWire(out["size"]),
        "brand" := out["brand"], "ac" := out["ac"], "no_of_seats" := out["no_of_seats"],
        "status" := StatusFromWire(out["status"]),
        "created" := out["created"], "updated" := out["updated"]]
  }

  /** `Shuttle.serialize` exposes `shuttle_id` equal to `id`, and size and status as their wire strings. */
  lemma SerializeShuttleExposes(s: Record)
    requires LoadedShuttle(s)
    ensures SerializeShuttle(s)["shuttle_id"] == s["id"]
    ensures SerializeShuttle(s)["size"] == Str(SizeValue(s["size"].member.size))
    ensures SerializeShuttle(s)["status"] == Str(StatusValue(s["status"].member.status))
  {
  }

  /** Serializing a loaded shuttle loses nothing: the row can be read back from it. */
  lemma SerializeShuttleRoundTrip(s: Record)
    requires LoadedShuttle(s)
    ensures ShuttleFromSerialized(SerializeShuttle(s)) == s
  {
    var out := SerializeShuttle(s);
    var back := ShuttleFromSerialized(out);
    EnumRoundTrips(s["size"].member.size, s["status"].member.status, BusStop, UserStatus.Enabled, Driver);
    assert SizeFromWire(out["size"]) == s["size"];
    assert StatusFromWire(out["status"]) == s["status"];
    assert back.Keys == s.Keys;
  }

  /** `Location.serialize` omits `status`: two locations that differ only there serialize alike. */
  lemma SerializeLocationIgnoresStatus(l: Record, status: Value)
    requires IsLocation(l)
    ensures SerializeLocation(l["status" := status]) == SerializeLocation(l)
  {
  }

  /** `_id` equals `id`, and a member-valued `type` is rendered as its wire string. */
  lemma SerializeLocationExposes(l: Record)
    requires IsLocation(l)
    ensures SerializeLocation(l)["_id"] == l["id"]
    ensures l["type"].Enum? ==> SerializeLocation(l)["type"] == Str(WireValue(l["type"].member))
    ensures "status" !in SerializeLocation(l)
  {
  }

  /**
   * A freshly created shuttle is active: once stored under an id no earlier row
   * has, `get_shuttle_by_id` finds exactly it.
   */
  lemma {:induction false} CreatedShuttleIsActive(shuttles: seq<Record>, s: Record, id: int)
    requires ShuttleTable(shuttles) && IsShuttle(s) && s["status"] == Null
    requires forall x :: x in shuttles ==> Rendered(x["id"]) != Int(id)
    ensures ShuttleTable(shuttles + [InsertedShuttle(s, id)])
    ensures GetShuttleById(shuttles + [InsertedShuttle(s, id)], Int(id)) == Some(InsertedShuttle(s, id))
  {
    var row := InsertedShuttle(s, id);
    var rows := shuttles + [row];
    var args := ActiveShuttleArgs(Int(id));
    assert rows[|shuttles|] == row && Matches(row, args);
    forall j | 0 <= j < |shuttles| ensures !Matches(rows[j], args) {
      assert rows[j] == shuttles[j] && shuttles[j] in shuttles;
    }
    var k := FirstMatch(rows, args);
    assert k.Some?;
    assert k.value == |shuttles|;
  }

  /** Replacing one row by a well-formed shuttle keeps the table well formed. */
  lemma ShuttleTableReplace(rows: seq<Record>, k: nat, row: Record)
    requires ShuttleTable(rows) && k < |rows| && IsShuttle(row)
    ensures ShuttleTable(rows[k := row])
  {
    forall x | x in rows[k := row] ensures IsShuttle(x) {
      var i :| 0 <= i < |rows| && rows[k := row][i] == x;
      if i != k {
        assert rows[i] in rows;
      }
    }
  }

  /** Replacing one row by a well-formed location keeps the table well formed. */
  lemma LocationTableReplace(rows: seq<Record>, k: nat, row: Record)
    requires LocationTable(rows) && k < |rows| && IsLocation(row)
    ensures LocationTable(rows[k := row])
  {
    forall x | x in rows[k := row] ensures IsLocation(x) {
      var i :| 0 <= i < |rows| && rows[k := row][i] == x;
      if i != k {
        assert rows[i] in rows;
      }
    }
  }
}
