/**
 * Column values, rows and handler responses.
 *
 * A row of any table is a map from column name to value, so Python's
 * `hasattr(row, name)` is `name in row` and `setattr` is a map update.
 * Floats and datetimes are opaque tokens: nothing in the core computes on them.
 */
module Values {
  import opened Enums

  datatype Value =
    | Null
    | Bool(b: bool)
    | Int(i: int)
    | Str(s: string)
    | Number(token: int)
    | Time(instant: int)
    | Enum(member: EnumMember)
    | List(items: seq<Value>)
    | Object(fields: map<string, Value>)

  type Record = map<string, Value>

  /**
   * The value as the database stores it and as `.value` renders it: an enum
   * member becomes its wire string, every other value is itself.
   */
  function Rendered(v: Value): (r: Value)
    ensures !r.Enum?
    ensures v.Enum? ==> r == Str(WireValue(v.member))
    ensures !v.Enum? ==> r == v
  {
    match v
    case Enum(m) => Str(WireValue(m))
    case _ => v
  }

  /** `body.get(key)` on a JSON object: the value, or None when the key is absent. */
  function JsonGet(body: map<string, Value>, key: string): (v: Value)
    ensures key in body ==> v == body[key]
    ensures key !in body ==> v == Null
  {
    if key in body then body[key] else Null
  }

  /** Why a handler answered with an error. */
  datatype Reason =
    | UserNotFound
    | DriverNotFound
    | NotADriver
    | ShuttleNotFound
    | NotDrivenByDriver
    | LocationNotFound
    | LocationExists
    | EmailExists
    | BadLoginDetails
    | NoShuttlesFound
    | NoLocationsFound
    | NoUsersFound
    | NoDriversFound

  /**
   * A Python exception that no handler catches; Flask answers it with 500.
   * `NoSuchProperty` is SQLAlchemy's error for `filter_by` on unknown columns.
   */
  datatype PyError =
    | TypeError
    | NoSuchProperty(names: set<string>)

  /**
   * What a handler answers:
   * `Success` is the envelope `{'status': 'success', 'data': data}`,
   * `Body` a serialization returned as the whole body,
   * `Error` the envelope `{'status': 'error', 'message': ..., 'code': code}`,
   * `Aborted` an HTTP error status (`abort(code)`, or 401 from `login_required`),
   * `Uncaught` an exception no handler catches, which Flask answers with status 500.
   */
  datatype Response =
    | Success(data: Value)
    | Body(data: Value)
    | Error(code: int, reason: Reason)
    | Aborted(status: int)
    | Uncaught(error: PyError)
}
