/**
 * The user and driver handlers of app/api/users/users.py. Bodies are the
 * ones the request schemas accept (the string and integer fields arrive
 * with those types); route ids are integers, as the database compares them.
 *
 * `@auth.login_required` hands the HTTP Basic credentials to
 * `verify_password`; the user name there is always a string, so it is
 * always tried as a token.
 */
module UsersApi {
  import opened Common
  import opened Enums
  import opened Values
  import opened Query
  import opened UserModels
  import opened UpdateEngine
  import opened Database

  /** `@auth.login_required` with the Basic credentials `username:password`. */
  function LoginRequired(ctx: PasswordContext, s: Signer, users: seq<Record>, username: string,
                         password: string, now: int): (r: AuthResult)
    requires UserTable(users)
    ensures r.Authenticated? <==> VerifyAuthToken(s, users, Str(username), now).Some?
    ensures r.Authenticated? ==> r.user == VerifyAuthToken(s, users, Str(username), now).value && r.user in users
  {
    VerifyPassword(ctx, s, users, Str(username), password, now)
  }

  /** The password never matters to `login_required`: only the token does. */
  lemma LoginRequiredIgnoresPassword(ctx: PasswordContext, s: Signer, users: seq<Record>, username: string,
                                     p1: string, p2: string, now: int)
    requires UserTable(users)
    ensures LoginRequired(ctx, s, users, username, p1, now) == LoginRequired(ctx, s, users, username, p2, now)
  {
  }

  /** Ids are keys: no two users share a `user_id`. */
  ghost predicate UserIdsUnique(users: seq<Record>)
  {
    forall i, j :: 0 <= i < j < |users| && "user_id" in users[i] && "user_id" in users[j] ==>
      Rendered(users[i]["user_id"]) != Rendered(users[j]["user_id"])
  }

  /** Emails are unique: no two users share one. */
  ghost predicate EmailsUnique(users: seq<Record>)
  {
    forall i, j :: 0 <= i < j < |users| && "email" in users[i] && "email" in users[j] ==>
      Rendered(users[i]["email"]) != Rendered(users[j]["email"])
  }

  /** With unique ids, looking a stored user up by its own id finds that user. */
  lemma LookupOwnId(users: seq<Record>, user: Record)
    requires UserTable(users) && UserIdsUnique(users) && user in users
    ensures GetUser(users, user["user_id"]) == Some(user)
  {
    var k :| 0 <= k < |users| && users[k] == user;
    var args := map["user_id" := user["user_id"]];
    assert Matches(users[k], args);
    assert FirstMatch(users, args).Some?;
  }

  /** `get_auth_token`: a fresh token for the authenticated user. */
  method GetAuthToken(ctx: PasswordContext, s: Signer, users: seq<Record>, username: string, password: string, now: int)
    returns (r: Response)
    requires UserTable(users)
    ensures r == Aborted(401) || r.Body?
    ensures LoginRequired(ctx, s, users, username, password, now).Unauthenticated? <==> r == Aborted(401)
    ensures r.Body? ==>
      && r.data.Object? && r.data.fields.Keys == {"token"} && r.data.fields["token"].Str?
      && var token := r.data.fields["token"].s;
         var user := LoginRequired(ctx, s, users, username, password, now).user;
         forall later :: SoundSigner(s) && now <= later <= now + DefaultExpiration && UserIdsUnique(users) ==>
           LoginRequired(ctx, s, users, token, password, later) == Authenticated(user)
  {
    var auth := LoginRequired(ctx, s, users, username, password, now);
    if auth.Unauthenticated? {
      return Aborted(401);
    }
    var token := GenerateAuthToken(s, auth.user, now);
    forall later | SoundSigner(s) && now <= later <= now + DefaultExpiration && UserIdsUnique(users)
      ensures LoginRequired(ctx, s, users, token, password, later) == Authenticated(auth.user)
    {
      LookupOwnId(users, auth.user);
      TokenRoundTrip(s, users, auth.user, now, later);
    }
    r := Body(Object(map["token" := Str(token)]));
  }

  /** `get_user`: behind `login_required`, the user with that id. */
  method ShowUser(ctx: PasswordContext, s: Signer, users: seq<Record>, username: string, password: string, now: int,
                  userId: int) returns (r: Response)
    requires UserTable(users)
    ensures r == Aborted(401) || r == Error(400, UserNotFound) || r.Body?
    ensures LoginRequired(ctx, s, users, username, password, now).Unauthenticated? <==> r == Aborted(401)
    ensures LoginRequired(ctx, s, users, username, password, now).Authenticated? ==>
              (GetUser(users, Int(userId)).None? <==> r == Error(400, UserNotFound))
    ensures LoginRequired(ctx, s, users, username, password, now).Authenticated? && GetUser(users, Int(userId)).Some? ==>
              r == Body(Object(SerializeUser(GetUser(users, Int(userId)).value)))
    ensures r.Body? ==> LoginRequired(ctx, s, users, username, password, now).Authenticated?
    ensures r.Body? ==> exists x :: x in users && Rendered(x["user_id"]) == Int(userId) && r.data == Object(SerializeUser(x))
  {
    var auth := LoginRequired(ctx, s, users, username, password, now);
    if auth.Unauthenticated? {
      return Aborted(401);
    }
    var user := First(users, map["user_id" := Int(userId)]);
    if user.None? {
      return Error(400, UserNotFound);
    }
    var x := user.value;
    assert Matches(x, map["user_id" := Int(userId)]);
    r := Body(Object(SerializeUser(x)));
  }

  /** Appending a user whose email no stored user has keeps emails unique. */
  lemma FreshEmailKeepsEmailsUnique(users: seq<Record>, row: Record)
    requires UserTable(users) && IsUser(row)
    requires First(users, map["email" := row["email"]]).None?
    ensures UserTable(users + [row])
    ensures EmailsUnique(users) ==> EmailsUnique(users + [row])
  {
    forall i | 0 <= i < |users| ensures users[i] in users && Rendered(users[i]["email"]) != Rendered(row["email"]) {
      assert users[i] in users && !Matches(users[i], map["email" := row["email"]]);
    }
  }

  /**
   * `register_user`: a taken email is refused with 409; otherwise exactly one
   * user, built by the `User` constructor, is appended under the new key.
   */
  method RegisterUser(db: Store, ctx: PasswordContext, firstName: string, lastName: string, password: string,
                      email: string, accountType: string, now: int, code: int, newId: int) returns (r: Response)
    requires db.Valid()
    requires ParseAccountType(accountType).Some?
    requires MinRegistrationCode <= code <= MaxRegistrationCode
    modifies db
    ensures db.Valid()
    ensures db.shuttles == old(db.shuttles) && db.locations == old(db.locations)
    ensures First(old(db.users), map["email" := Str(email)]).Some? ==>
              r == Error(409, EmailExists) && db.users == old(db.users)
    ensures First(old(db.users), map["email" := Str(email)]).None? ==>
              var row := InsertedUser(NewUser(ctx, firstName, lastName, password, email,
                                              ParseAccountType(accountType).value, now, code), newId);
              && db.users == old(db.users) + [row]
              && row["email"] == Str(email)
              && r == Body(Object(SerializeUser(row)))
    ensures EmailsUnique(old(db.users)) ==> EmailsUnique(db.users)
  {
    var existing := First(db.users, map["email" := Str(email)]);
    if existing.Some? {
      return Error(409, EmailExists);
    }
    var user := NewUser(ctx, firstName, lastName, password, email, ParseAccountType(accountType).value, now, code);
    var row := InsertedUser(user, newId);
    FreshEmailKeepsEmailsUnique(db.users, row);
    db.InsertUser(row);
    r := Body(Object(SerializeUser(row)));
  }

  /**
   * A registered user can log in: under a fresh key, `login`'s email lookup
   * finds the new row and the id-and-password check accepts the plaintext.
   */
  lemma RegisteredUserCanLogIn(ctx: PasswordContext, s: Signer, users: seq<Record>, firstName: string, lastName: string,
                               password: string, email: string, accountType: AccountType, now: int, code: int,
                               newId: int, row: Record, later: int)
    requires SoundHashing(ctx) && UserTable(users)
    requires MinRegistrationCode <= code <= MaxRegistrationCode
    requires First(users, map["email" := Str(email)]).None?
    requires forall x :: x in users ==> Rendered(x["user_id"]) != Int(newId)
    requires row == InsertedUser(NewUser(ctx, firstName, lastName, password, email, accountType, now, code), newId)
    ensures UserTable(users + [row])
    ensures First(users + [row], map["email" := Str(email)]) == Some(row)
    ensures VerifyPassword(ctx, s, users + [row], row["user_id"], password, later) == Authenticated(row)
  {
    AppendedUserIsFound(users, row, email, newId);
    NewUserStoresHash(ctx, firstName, lastName, password, email, accountType, now, code);
  }

  /** A row appended with a fresh email and a fresh id is what both lookups find. */
  lemma AppendedUserIsFound(users: seq<Record>, row: Record, email: string, newId: int)
    requires UserTable(users) && IsUser(row)
    requires row["email"] == Str(email) && row["user_id"] == Int(newId)
    requires First(users, map["email" := Str(email)]).None?
    requires forall x :: x in users ==> Rendered(x["user_id"]) != Int(newId)
    ensures UserTable(users + [row])
    ensures First(users + [row], map["email" := Str(email)]) == Some(row)
    ensures GetUser(users + [row], Int(newId)) == Some(row)
  {
    assert UserTable(users + [row]);
    assert Matches(row, map["email" := Str(email)]);
    FirstOfAppended(users, row, map["email" := Str(email)]);
    assert Matches(row, map["user_id" := Int(newId)]);
    forall x | x in users ensures !Matches(x, map["user_id" := Int(newId)]) {
    }
    FirstOfAppended(users, row, map["user_id" := Int(newId)]);
  }

  /**
   * `login`: the user with that email, the password checked by id through
   * `verify_password`, and a token for the user it authenticated.
   */
  method Login(ctx: PasswordContext, s: Signer, users: seq<Record>, email: string, password: string, now: int)
    returns (r: Response)
    requires UserTable(users)
    ensures First(users, map["email" := Str(email)]).None? <==> r == Error(400, UserNotFound)
    ensures First(users, map["email" := Str(email)]).Some? ==>
              var user := First(users, map["email" := Str(email)]).value;
              (VerifyPassword(ctx, s, users, user["user_id"], password, now).Unauthenticated? <==>
                 r == Error(400, BadLoginDetails))
    ensures r.Error? ==> r.code == 400 && r.reason in {UserNotFound, BadLoginDetails}
    ensures r.Success? ==>
              var user := First(users, map["email" := Str(email)]).value;
              var auth := VerifyPassword(ctx, s, users, user["user_id"], password, now);
              && auth.Authenticated?
              && r.data == Object(map["user" := Object(SerializeUser(user)),
                                      "token" := Str(GenerateAuthToken(s, auth.user, now))])
    ensures r.Success? || r.Error?
  {
    var user := First(users, map["email" := Str(email)]);
    if user.None? {
      return Error(400, UserNotFound);
    }
    var auth := VerifyPassword(ctx, s, users, user.value["user_id"], password, now);
    if auth.Unauthenticated? {
      return Error(400, BadLoginDetails);
    }
    var token := GenerateAuthToken(s, auth.user, now);
    r := Success(Object(map["user" := Object(SerializeUser(user.value)), "token" := Str(token)]));
  }

  /**
   * Logging in with a stored user's id authenticates that very user when ids
   * are unique, so the token `login` issues is the caller's own.
   */
  lemma LoginTokenIsForTheUser(ctx: PasswordContext, s: Signer, users: seq<Record>, email: string, password: string,
                               now: int, later: int)
    requires UserTable(users) && UserIdsUnique(users) && SoundSigner(s)
    requires First(users, map["email" := Str(email)]).Some?
    requires var user := First(users, map["email" := Str(email)]).value;
             user["user_id"].Int? && VerifyPassword(ctx, s, users, user["user_id"], password, now).Authenticated?
    requires now <= later <= now + DefaultExpiration
    ensures var user := First(users, map["email" := Str(email)]).value;
            var auth := VerifyPassword(ctx, s, users, user["user_id"], password, now);
            && auth.user == user
            && VerifyAuthToken(s, users, Str(GenerateAuthToken(s, auth.user, now)), later) == Some(user)
  {
    var user := First(users, map["email" := Str(email)]).value;
    LookupOwnId(users, user);
    TokenRoundTrip(s, users, user, now, later);
  }

  /** The `query_args` of `get_all_users`: each supplied parameter, as given. */
  function UserQueryArgs(status: Option<string>, accountType: Option<string>): (args: map<string, Value>)
    ensures "status" in args <==> status.Some?
    ensures "status" in args ==> args["status"] == Str(status.value)
    ensures "account_type" in args <==> accountType.Some?
    ensures "account_type" in args ==> args["account_type"] == Str(accountType.value)
    ensures args.Keys <= {"status", "account_type"}
  {
    var withStatus: map<string, Value> := if status.Some? then map["status" := Str(status.value)] else map[];
    if accountType.Some? then withStatus["account_type" := Str(accountType.value)] else withStatus
  }

  /** The users `get_all_users` asks for. */
  predicate UserSelected(x: Record, status: Option<string>, accountType: Option<string>)
    requires IsUser(x)
  {
    && (status.Some? ==> Rendered(x["status"]) == Str(status.value))
    && (accountType.Some? ==> Rendered(x["account_type"]) == Str(accountType.value))
  }

  lemma UserQuerySelects(x: Record, status: Option<string>, accountType: Option<string>)
    requires IsUser(x)
    ensures Matches(x, UserQueryArgs(status, accountType)) <==> UserSelected(x, status, accountType)
  {
    var args := UserQueryArgs(status, accountType);
    if status.Some? {
      assert "status" in args && args["status"] == Str(status.value);
    }
    if accountType.Some? {
      assert "account_type" in args && args["account_type"] == Str(accountType.value);
    }
  }

  function SerializeUsers(rows: seq<Record>): (r: seq<Value>)
    requires UserTable(rows)
    ensures |r| == |rows|
    ensures forall i :: 0 <= i < |rows| ==> r[i] == Object(SerializeUser(rows[i]))
  {
    seq(|rows|, i requires 0 <= i < |rows| => Object(SerializeUser(rows[i])))
  }

  /** `get_all_users`: supplied filters restrict, omitted ones do not; nothing found is an error. */
  method GetAllUsers(users: seq<Record>, status: Option<string>, accountType: Option<string>) returns (r: Response)
    requires UserTable(users)
    ensures r.Error? || r.Success?
    ensures r.Error? <==> forall x :: x in users ==> !UserSelected(x, status, accountType)
    ensures r.Error? ==> r == Error(500, NoUsersFound)
    ensures r.Success? ==> r.data == List(SerializeUsers(Filtered(users, UserQueryArgs(status, accountType))))
    ensures r.Success? ==> forall x :: x in Filtered(users, UserQueryArgs(status, accountType)) ==>
                             x in users && UserSelected(x, status, accountType)
    ensures r.Success? && status.None? && accountType.None? ==> r.data == List(SerializeUsers(users))
  {
    var queryArgs: map<string, Value> := map[];
    if status.Some? {
      queryArgs := queryArgs["status" := Str(status.value)];
    }
    if accountType.Some? {
      queryArgs := queryArgs["account_type" := Str(accountType.value)];
    }
    assert queryArgs == UserQueryArgs(status, accountType);
    var found := Filtered(users, queryArgs);
    forall x | x in users ensures Matches(x, queryArgs) <==> UserSelected(x, status, accountType) {
      UserQuerySelects(x, status, accountType);
    }
    FilteredEmpty(users, queryArgs);
    if status.None? && accountType.None? {
      FilteredNoArgs(users);
    }
    if |found| <= 0 {
      return Error(500, NoUsersFound);
    }
    r := Success(List(SerializeUsers(found)));
  }

  /** The single filter of `get_all_drivers`. */
  const DriverArgs: map<string, Value> := map["account_type" := Enum(Account(Driver))]

  /** The driver filter picks out exactly the driver accounts. */
  lemma DriverArgsSelectDrivers(x: Record)
    requires IsUser(x)
    ensures Matches(x, DriverArgs) <==> IsDriver(x)
  {
    assert "account_type" in DriverArgs;
  }

  /** `get_all_drivers`: exactly the driver accounts; none is an error. */
  method GetAllDrivers(users: seq<Record>) returns (r: Response)
    requires UserTable(users)
    ensures r.Error? || r.Success?
    ensures r.Error? <==> forall x :: x in users ==> !IsDriver(x)
    ensures r.Error? ==> r == Error(500, NoDriversFound)
    ensures r.Success? ==> r.data == List(SerializeUsers(Filtered(users, DriverArgs)))
    ensures r.Success? ==> forall x :: x in users ==> (x in Filtered(users, DriverArgs) <==> IsDriver(x))
  {
    var drivers := Filtered(users, DriverArgs);
    forall x | x in users ensures Matches(x, DriverArgs) <==> IsDriver(x) {
      DriverArgsSelectDrivers(x);
    }
    FilteredEmpty(users, DriverArgs);
    if |drivers| <= 0 {
      return Error(500, NoDriversFound);
    }
    r := Success(List(SerializeUsers(drivers)));
  }

  /** `update_user`, with the empty skip list the default evidently stands for. */
  method UpdateUser(db: Store, userId: int, payload: Payload, toSnake: string -> string) returns (r: Response)
    requires db.Valid()
    modifies db
    ensures db.Valid()
    ensures db.shuttles == old(db.shuttles) && db.locations == old(db.locations)
    ensures FirstMatch(old(db.users), map["user_id" := Int(userId)]).None? ==>
              r == Error(400, UserNotFound) && db.users == old(db.users)
    ensures FirstMatch(old(db.users), map["user_id" := Int(userId)]).Some? ==>
              var k := FirstMatch(old(db.users), map["user_id" := Int(userId)]).value;
              var row := UpdatedRecord(payload, old(db.users)[k], ProtectedSkipList([]), toSnake);
              && old(db.users)[k] in old(db.users)
              && db.users == old(db.users)[k := row]
              && row["created"] == old(db.users)[k]["created"] && row["updated"] == old(db.users)[k]["updated"]
              && r == Success(Object(SerializeUser(row)))
  {
    var k := FirstMatch(db.users, map["user_id" := Int(userId)]);
    if k.None? {
      return Error(400, UserNotFound);
    }
    var user := db.users[k.value];
    assert user in db.users;
    var updated, _, _ := UpdateEntry(payload, user, [], toSnake);
    UpdateKeepsTimestamps(payload, user, [], toSnake);
    db.ReplaceUser(k.value, updated);
    r := Success(Object(SerializeUser(updated)));
  }

  /** `update_user` as written: the omitted skip list makes `update_entry` raise TypeError. */
  method UpdateUserAsWritten(users: seq<Record>, userId: int, payload: Payload, toSnake: string -> string)
    returns (r: Response)
    requires UserTable(users)
    ensures FirstMatch(users, map["user_id" := Int(userId)]).None? ==> r == Error(400, UserNotFound)
    ensures FirstMatch(users, map["user_id" := Int(userId)]).Some? ==> r == Uncaught(TypeError)
  {
    var k := FirstMatch(users, map["user_id" := Int(userId)]);
    if k.None? {
      return Error(400, UserNotFound);
    }
    var outcome := UpdateEntryAsWritten(payload, users[k.value], ListTypeObject, toSnake);
    r := Uncaught(outcome.error);
  }

  /**
   * `confirm_registration`, with the lookup on a column `keyField` of the
   * User table (the route names the user by `username`, which is no column).
   */
  method ConfirmRegistration(db: Store, ctx: PasswordContext, s: Signer, authName: string, authPassword: string,
                             now: int, keyField: string, username: string, code: int) returns (r: Response)
    requires db.Valid()
    requires keyField in UserColumns
    modifies db
    ensures db.Valid()
    ensures db.shuttles == old(db.shuttles) && db.locations == old(db.locations)
    ensures LoginRequired(ctx, s, old(db.users), authName, authPassword, now).Unauthenticated? ==>
              r == Aborted(401) && db.users == old(db.users)
    ensures LoginRequired(ctx, s, old(db.users), authName, authPassword, now).Authenticated? ==>
              var k := FirstMatch(old(db.users), map[keyField := Str(username)]);
              && (k.Some? ==> old(db.users)[k.value] in old(db.users))
              && (k.None? ==> r == Aborted(400) && db.users == old(db.users))
              && (k.Some? && !old(db.users)[k.value]["registration_code"].Int? ==>
                    r == Uncaught(TypeError) && db.users == old(db.users))
              && (k.Some? && old(db.users)[k.value]["registration_code"] == Int(code) ==>
                    var row := old(db.users)[k.value]["registration_confirmed" := Bool(true)];
                    && db.users == old(db.users)[k.value := row]
                    && r == Body(Object(SerializeUser(row))))
              && (k.Some? && old(db.users)[k.value]["registration_code"].Int? &&
                  old(db.users)[k.value]["registration_code"] != Int(code) ==>
                    r == Aborted(400) && db.users == old(db.users))
  {
    var auth := LoginRequired(ctx, s, db.users, authName, authPassword, now);
    if auth.Unauthenticated? {
      return Aborted(401);
    }
    var k := FirstMatch(db.users, map[keyField := Str(username)]);
    if k.None? {
      return Aborted(400);
    }
    var user := db.users[k.value];
    assert user in db.users;
    var stored := user["registration_code"];
    if !stored.Int? {
      return Uncaught(TypeError);
    }
    if code == stored.i {
      var row := user["registration_confirmed" := Bool(true)];
      db.ReplaceUser(k.value, row);
      return Body(Object(SerializeUser(row)));
    }
    r := Aborted(400);
  }

  /** User has no `username` column, so a query on it raises whatever the table holds. */
  lemma UsernameQueryRaises(users: seq<Record>, username: string)
    ensures "username" !in UserColumns
    ensures FirstChecked(UserColumns, users, map["username" := Str(username)]) == Err(NoSuchProperty({"username"}))
  {
    assert map["username" := Str(username)].Keys - UserColumns == {"username"};
  }

  /**
   * `confirm_registration` as written: once past `login_required`, the
   * `filter_by(username=...)` query raises, so no registration is ever confirmed.
   */
  method ConfirmRegistrationAsWritten(ctx: PasswordContext, s: Signer, users: seq<Record>, authName: string,
                                      authPassword: string, now: int, username: string, code: int) returns (r: Response)
    requires UserTable(users)
    ensures LoginRequired(ctx, s, users, authName, authPassword, now).Unauthenticated? <==> r == Aborted(401)
    ensures LoginRequired(ctx, s, users, authName, authPassword, now).Authenticated? ==>
              r == Uncaught(NoSuchProperty({"username"}))
  {
    var auth := LoginRequired(ctx, s, users, authName, authPassword, now);
    if auth.Unauthenticated? {
      return Aborted(401);
    }
    UsernameQueryRaises(users, username);
    var query := FirstChecked(UserColumns, users, map["username" := Str(username)]);
    r := Uncaught(query.error);
  }
}
