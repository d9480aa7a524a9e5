/**
 * The User model of app/models/users.py: columns, constructor, `serialize`,
 * `get_user`, the auth-token pair and the credential check `verify_password`.
 *
 * Password hashing (passlib) and token signing (itsdangerous) are libraries
 * outside this model: they enter as values of function type, and the little
 * the core relies on them for is stated as the ghost predicates `SoundHashing`
 * and `SoundSigner`, which the lemmas take as preconditions.
 */
module UserModels {
  import opened Common
  import opened Enums
  import opened Values
  import opened Query

  const UserColumns: set<string> :=
    {"user_id", "email", "account_type", "password", "first_name", "last_name", "status",
     "created", "updated", "registration_code", "registration_confirmed"}

  /** The keys of `User.serialize`. */
  const UserSerializedKeys: set<string> :=
    {"_id", "firstName", "lastName", "email", "status", "accountType", "created", "updated"}

  /** The default of `generate_auth_token(expiration=600)`, in seconds. */
  const DefaultExpiration: nat := 600

  /** The bounds of `random.randint(10000, 99999)`, both inclusive. */
  const MinRegistrationCode: int := 10000
  const MaxRegistrationCode: int := 99999

  predicate IsUser(r: Record) { r.Keys == UserColumns }

  predicate UserTable(rows: seq<Record>) { forall x :: x in rows ==> IsUser(x) }

  /** `custom_app_context.encrypt` and `custom_app_context.verify`. */
  datatype PasswordContext = PasswordContext(encrypt: string -> string, verify: (string, Value) -> bool)

  /** A hash verifies against its own plaintext and never equals it. */
  ghost predicate SoundHashing(ctx: PasswordContext)
  {
    forall p :: ctx.verify(p, Str(ctx.encrypt(p))) && ctx.encrypt(p) != p
  }

  /** What `TimedJSONWebSignatureSerializer.loads` yields or raises. */
  datatype Loaded = Payload(userId: Value) | SignatureExpired | BadSignature

  /**
   * The serializer under the server's secret key: `dumps(userId, expiresIn, issuedAt)`
   * signs the payload `{'userId': userId}`; `loads(token, now)` checks it.
   */
  datatype Signer = Signer(dumps: (Value, nat, int) -> string, loads: (Value, int) -> Loaded)

  /**
   * A token this server signed carries its payload until it expires, at
   * issue time plus the expiry window, and is reported expired afterwards.
   */
  ghost predicate SoundSigner(s: Signer)
  {
    forall uid, exp: nat, t, now :: s.loads(Str(s.dumps(uid, exp, t)), now)
      == if now <= t + exp then Payload(uid) else SignatureExpired
  }

  /**
   * `User(first_name, last_name, password, email, account_type)`. The clock
   * reading `now` and the draw `code` of `random.randint(10000, 99999)` are inputs.
   */
  function NewUser(ctx: PasswordContext, firstName: string, lastName: string, password: string,
                   email: string, accountType: AccountType, now: int, code: int): (u: Record)
    requires MinRegistrationCode <= code <= MaxRegistrationCode
    ensures IsUser(u)
    ensures u["password"] == Str(ctx.encrypt(password))
    ensures u["registration_code"].Int?
    ensures MinRegistrationCode <= u["registration_code"].i <= MaxRegistrationCode
    ensures u["registration_confirmed"] == Bool(false)
    ensures u["created"] == Time(now)
    ensures u["email"] == Str(email)
    ensures u["account_type"] == Enum(Account(accountType))
  {
    map["user_id" := Null, "email" := Str(email), "account_type" := Enum(Account(accountType)),
        "password" := Str(ctx.encrypt(password)), "first_name" := Str(firstName),
        "last_name" := Str(lastName), "status" := Null, "created" := Time(now),
        "updated" := Null, "registration_code" := Int(code),
        "registration_confirmed" := Bool(false)]
  }

  /** The stored user: the autoincrement key and the `status=enabled` default. */
  function InsertedUser(u: Record, id: int): (row: Record)
    requires IsUser(u)
    ensures IsUser(row)
    ensures row["user_id"] == Int(id)
    ensures u["status"] == Null ==> row["status"] == Enum(UStatus(UserStatus.Enabled))
    ensures u["status"] != Null ==> row["status"] == u["status"]
    ensures forall f :: f in u && f !in {"user_id", "status"} ==> row[f] == u[f]
  {
    u["user_id" := Int(id)]
     ["status" := if u["status"] == Null then Enum(UStatus(UserStatus.Enabled)) else u["status"]]
  }

  /** `user.account_type is AccountTypeEnum.driver`. */
  predicate IsDriver(user: Record): (r: bool)
    requires IsUser(user)
    ensures user["account_type"].Enum? && user["account_type"].member.Account? ==>
              (r <==> user["account_type"].member.accountType == Driver)
    ensures user["account_type"] == Null ==> !r
  {
    Rendered(user["account_type"]) == Str("driver")
  }

  /** The stored password is the hash of the plaintext, which verifies and is not the plaintext. */
  lemma NewUserStoresHash(ctx: PasswordContext, firstName: string, lastName: string, password: string,
                          email: string, accountType: AccountType, now: int, code: int)
    requires SoundHashing(ctx)
    requires MinRegistrationCode <= code <= MaxRegistrationCode
    ensures NewUser(ctx, firstName, lastName, password, email, accountType, now, code)["password"] != Str(password)
    ensures ctx.verify(password, NewUser(ctx, firstName, lastName, password, email, accountType, now, code)["password"])
  {
    assert ctx.verify(password, Str(ctx.encrypt(password))) && ctx.encrypt(password) != password;
  }

  /** `User.serialize`: the public columns, enums as their values or null when unset. */
  function SerializeUser(u: Record): (out: map<string, Value>)
    requires IsUser(u)
    ensures out.Keys == UserSerializedKeys
    ensures "password" !in out && "registration_code" !in out && "registration_confirmed" !in out
  {
    map["_id" := u["user_id"], "firstName" := u["first_name"], "lastName" := u["last_name"],
        "email" := u["email"], "status" := Rendered(u["status"]),
        "accountType" := Rendered(u["account_type"]), "created" := u["created"],
        "updated" := u["updated"]]
  }

  /** Status and account type appear as their wire strings, or null when unset. */
  lemma SerializeUserRendersEnums(u: Record)
    requires IsUser(u)
    ensures u["status"] == Null ==> SerializeUser(u)["status"] == Null
    ensures u["status"].Enum? ==> SerializeUser(u)["status"] == Str(WireValue(u["status"].member))
    ensures u["account_type"] == Null ==> SerializeUser(u)["accountType"] == Null
    ensures u["account_type"].Enum? ==> SerializeUser(u)["accountType"] == Str(WireValue(u["account_type"].member))
  {
  }

  /** The output does not depend on the secret columns: nothing of them leaks. */
  lemma SerializeUserHidesSecrets(u: Record, password: Value, code: Value, confirmed: Value)
    requires IsUser(u)
    ensures SerializeUser(u["password" := password]["registration_code" := code]["registration_confirmed" := confirmed])
         == SerializeUser(u)
  {
  }

  /** `User.get_user(user_id)`: the first user whose `user_id` equals the argument. */
  function GetUser(users: seq<Record>, userId: Value): (r: Option<Record>)
    requires UserTable(users)
    ensures r.Some? ==> r.value in users && Rendered(r.value["user_id"]) == Rendered(userId)
    ensures r.None? <==> forall x :: x in users ==> Rendered(x["user_id"]) != Rendered(userId)
  {
    First(users, map["user_id" := userId])
  }

  /** `generate_auth_token`: a token embedding the user's id, valid for `expiration` seconds. */
  function GenerateAuthToken(s: Signer, user: Record, now: int, expiration: nat := DefaultExpiration): (token: string)
    requires IsUser(user)
    ensures SoundSigner(s) ==>
      forall later :: later <= now + expiration ==> s.loads(Str(token), later) == Payload(user["user_id"])
    ensures SoundSigner(s) ==>
      forall later :: later > now + expiration ==> s.loads(Str(token), later) == SignatureExpired
  {
    s.dumps(user["user_id"], expiration, now)
  }

  /**
   * `User.verify_auth_token`: an expired or badly signed token gives no user;
   * otherwise the user whose key is in the token, or none if there is none.
   */
  function VerifyAuthToken(s: Signer, users: seq<Record>, token: Value, now: int): (r: Option<Record>)
    requires UserTable(users)
    ensures s.loads(token, now).SignatureExpired? || s.loads(token, now).BadSignature? ==> r.None?
    ensures s.loads(token, now).Payload? ==> r == GetUser(users, s.loads(token, now).userId)
  {
    match s.loads(token, now)
    case SignatureExpired => None
    case BadSignature => None
    case Payload(uid) => GetUser(users, uid)
  }

  /** A token issued at `t` resolves to its user up to `t + 600` and to nothing after. */
  lemma TokenRoundTrip(s: Signer, users: seq<Record>, user: Record, t: int, now: int)
    requires SoundSigner(s) && UserTable(users) && IsUser(user)
    ensures now <= t + DefaultExpiration ==>
      VerifyAuthToken(s, users, Str(GenerateAuthToken(s, user, t)), now) == GetUser(users, user["user_id"])
    ensures now > t + DefaultExpiration ==>
      VerifyAuthToken(s, users, Str(GenerateAuthToken(s, user, t)), now).None?
  {
    assert s.loads(Str(s.dumps(user["user_id"], DefaultExpiration, t)), now)
        == if now <= t + DefaultExpiration then Payload(user["user_id"]) else SignatureExpired;
  }

  /** The effect of `verify_password` on the request context `g.user`. */
  datatype AuthResult = Authenticated(user: Record) | Unauthenticated

  /**
   * `verify_password(userid_or_token, password)`: an integer is a user id to be
   * checked with the password; anything else is a token. The user it
   * authenticates is returned instead of being stored in `g.user`.
   */
  function VerifyPassword(ctx: PasswordContext, s: Signer, users: seq<Record>, useridOrToken: Value,
                          password: string, now: int): (r: AuthResult)
    requires UserTable(users)
    ensures useridOrToken.Int? ==>
      (r.Authenticated? <==> GetUser(users, useridOrToken).Some? && ctx.verify(password, GetUser(users, useridOrToken).value["password"]))
    ensures useridOrToken.Int? && r.Authenticated? ==> r.user == GetUser(users, useridOrToken).value
    ensures !useridOrToken.Int? ==> (r.Authenticated? <==> VerifyAuthToken(s, users, useridOrToken, now).Some?)
    ensures !useridOrToken.Int? && r.Authenticated? ==> r.user == VerifyAuthToken(s, users, useridOrToken, now).value
    ensures r.Authenticated? ==> r.user in users
  {
    if !useridOrToken.Int? then
      match VerifyAuthToken(s, users, useridOrToken, now)
      case None => Unauthenticated
      case Some(user) => Authenticated(user)
    else
      match GetUser(users, useridOrToken)
      case None => Unauthenticated
      case Some(user) => if ctx.verify(password, user["password"]) then Authenticated(user) else Unauthenticated
  }

  /** A fresh token authenticates, as `verify_password` with any password, the user it was issued to. */
  lemma FreshTokenAuthenticates(ctx: PasswordContext, s: Signer, users: seq<Record>, user: Record,
                                password: string, t: int, now: int)
    requires SoundSigner(s) && UserTable(users) && IsUser(user)
    requires GetUser(users, user["user_id"]) == Some(user)
    requires now <= t + DefaultExpiration
    ensures VerifyPassword(ctx, s, users, Str(GenerateAuthToken(s, user, t)), password, now) == Authenticated(user)
  {
    TokenRoundTrip(s, users, user, t, now);
  }

  /** Replacing one row by a well-formed user keeps the table well formed. */
  lemma UserTableReplace(rows: seq<Record>, k: nat, row: Record)
    requires UserTable(rows) && k < |rows| && IsUser(row)
    ensures UserTable(rows[k := row])
  {
    forall x | x in rows[k := row] ensures IsUser(x) {
      var i :| 0 <= i < |rows| && rows[k := row][i] == x;
      if i != k {
        assert rows[i] in rows;
      }
    }
  }
}
