/**
 * The enumerations of app/models/shuttles.py and app/models/users.py, each with
 * the exact string that the database stores and `.value` yields.
 */
module Enums {
  import opened Common

  /** `ShuttleSizeEnum`. */
  datatype ShuttleSize = Small | Medium | Full

  /** `StatusEnum` of the shuttle model (shuttles and locations). */
  datatype ShuttleStatus = Enabled | Disabled | Blocked

  /** `LocationTypeEnum`. */
  datatype LocationType = BusStop | Building

  /** `StatusEnum` of the user model; unlike the shuttle one it has `pending`. */
  datatype UserStatus = Enabled | Disabled | Blocked | Pending

  /** `AccountTypeEnum`. */
  datatype AccountType = Driver | User | Admin

  /** A member of any of the five enumerations, as an ORM column holds it. */
  datatype EnumMember =
    | Size(size: ShuttleSize)
    | Status(status: ShuttleStatus)
    | LocType(locationType: LocationType)
    | UStatus(userStatus: UserStatus)
    | Account(accountType: AccountType)

  function SizeValue(s: ShuttleSize): string
  {
    match s
    case Small => "small"
    case Medium => "medium"
    case Full => "full"
  }

  function StatusValue(s: ShuttleStatus): string
  {
    match s
    case Enabled => "enabled"
    case Disabled => "disabled"
    case Blocked => "blocked"
  }

  function LocationTypeValue(t: LocationType): string
  {
    match t
    case BusStop => "bus_stop"
    case Building => "building"
  }

  function UserStatusValue(s: UserStatus): string
  {
    match s
    case Enabled => "enabled"
    case Disabled => "disabled"
    case Blocked => "blocked"
    case Pending => "pending"
  }

  function AccountTypeValue(a: AccountType): string
  {
    match a
    case Driver => "driver"
    case User => "user"
    case Admin => "admin"
  }

  /** `member.value`: the wire string of an enumeration member. */
  function WireValue(m: EnumMember): (r: string)
    ensures m.Size? ==> ParseSize(r) == Some(m.size)
    ensures m.Status? ==> ParseStatus(r) == Some(m.status)
    ensures m.LocType? ==> ParseLocationType(r) == Some(m.locationType)
    ensures m.UStatus? ==> ParseUserStatus(r) == Some(m.userStatus)
    ensures m.Account? ==> ParseAccountType(r) == Some(m.accountType)
  {
    match m
    case Size(s) => SizeValue(s)
    case Status(s) => StatusValue(s)
    case LocType(t) => LocationTypeValue(t)
    case UStatus(s) => UserStatusValue(s)
    case Account(a) => AccountTypeValue(a)
  }

  /** `ShuttleSizeEnum(t)`: lookup of a member by its value. */
  function ParseSize(t: string): (r: Option<ShuttleSize>)
    ensures r.Some? ==> SizeValue(r.value) == t
    ensures r.None? ==> forall s :: SizeValue(s) != t
  {
    if t == "small" then Some(Small)
    else if t == "medium" then Some(Medium)
    else if t == "full" then Some(Full)
    else None
  }

  /** `StatusEnum(t)` of the shuttle model. */
  function ParseStatus(t: string): (r: Option<ShuttleStatus>)
    ensures r.Some? ==> StatusValue(r.value) == t
    ensures r.None? ==> forall s :: StatusValue(s) != t
  {
    if t == "enabled" then Some(ShuttleStatus.Enabled)
    else if t == "disabled" then Some(ShuttleStatus.Disabled)
    else if t == "blocked" then Some(ShuttleStatus.Blocked)
    else None
  }

  /** `LocationTypeEnum(t)`. */
  function ParseLocationType(t: string): (r: Option<LocationType>)
    ensures r.Some? ==> LocationTypeValue(r.value) == t
    ensures r.None? ==> forall l :: LocationTypeValue(l) != t
  {
    if t == "bus_stop" then Some(BusStop)
    else if t == "building" then Some(Building)
    else None
  }

  /** `StatusEnum(t)` of the user model. */
  function ParseUserStatus(t: string): (r: Option<UserStatus>)
    ensures r.Some? ==> UserStatusValue(r.value) == t
    ensures r.None? ==> forall s :: UserStatusValue(s) != t
  {
    if t == "enabled" then Some(UserStatus.Enabled)
    else if t == "disabled" then Some(UserStatus.Disabled)
    else if t == "blocked" then Some(UserStatus.Blocked)
    else if t == "pending" then Some(Pending)
    else None
  }

  /** `AccountTypeEnum(t)`. */
  function ParseAccountType(t: string): (r: Option<AccountType>)
    ensures r.Some? ==> AccountTypeValue(r.value) == t
    ensures r.None? ==> forall a :: AccountTypeValue(a) != t
  {
    if t == "driver" then Some(Driver)
    else if t == "user" then Some(User)
    else if t == "admin" then Some(Admin)
    else None
  }

  /** The accepted wire strings are exactly the listed ones: small|medium|full. */
  lemma SizeWireStrings(t: string)
    ensures ParseSize(t).Some? <==> t in ["small", "medium", "full"]
  {
  }

  /** enabled|disabled|blocked for shuttles and locations. */
  lemma StatusWireStrings(t: string)
    ensures ParseStatus(t).Some? <==> t in ["enabled", "disabled", "blocked"]
  {
  }

  /** bus_stop|building. */
  lemma LocationTypeWireStrings(t: string)
    ensures ParseLocationType(t).Some? <==> t in ["bus_stop", "building"]
  {
  }

  /** enabled|disabled|blocked|pending for users. */
  lemma UserStatusWireStrings(t: string)
    ensures ParseUserStatus(t).Some? <==> t in ["enabled", "disabled", "blocked", "pending"]
  {
  }

  /** driver|user|admin. */
  lemma AccountTypeWireStrings(t: string)
    ensures ParseAccountType(t).Some? <==> t in ["driver", "user", "admin"]
  {
  }

  /** Rendering a member and looking it up again gives the member back. */
  lemma EnumRoundTrips(s: ShuttleSize, st: ShuttleStatus, l: LocationType, us: UserStatus, a: AccountType)
    ensures ParseSize(SizeValue(s)) == Some(s)
    ensures ParseStatus(StatusValue(st)) == Some(st)
    ensures ParseLocationType(LocationTypeValue(l)) == Some(l)
    ensures ParseUserStatus(UserStatusValue(us)) == Some(us)
    ensures ParseAccountType(AccountTypeValue(a)) == Some(a)
  {
  }
}
