/**
 * The database session: the three tables, each a sequence of rows in storage
 * order. Handlers receive the store and change its tables in place, as the
 * source changes rows loaded from `db.session` and commits them.
 */
module Database {
  import opened Values
  import opened ShuttleModels
  import opened UserModels

  class Store {
    var users: seq<Record>
    var shuttles: seq<Record>
    var locations: seq<Record>

    /** Every row has exactly the columns of its model. */
    ghost predicate Valid()
      reads this
    {
      UserTable(users) && ShuttleTable(shuttles) && LocationTable(locations)
    }

    constructor ()
      ensures Valid()
      ensures users == [] && shuttles == [] && locations == []
    {
      users, shuttles, locations := [], [], [];
    }

    /** `db.session.add(user)` and commit: the new row is stored last. */
    method InsertUser(row: Record)
      requires Valid() && IsUser(row)
      modifies this
      ensures Valid()
      ensures users == old(users) + [row]
      ensures shuttles == old(shuttles) && locations == old(locations)
    {
      users := users + [row];
    }

    /** `db.session.add(shuttle)` and commit. */
    method InsertShuttle(row: Record)
      requires Valid() && IsShuttle(row)
      modifies this
      ensures Valid()
      ensures shuttles == old(shuttles) + [row]
      ensures users == old(users) && locations == old(locations)
    {
      shuttles := shuttles + [row];
    }

    /** `db.session.add(location)` and commit. */
    method InsertLocation(row: Record)
      requires Valid() && IsLocation(row)
      modifies this
      ensures Valid()
      ensures locations == old(locations) + [row]
      ensures users == old(users) && shuttles == old(shuttles)
    {
      locations := locations + [row];
    }

    /** Committing changes to the user stored at position `k`. */
    method ReplaceUser(k: nat, row: Record)
      requires Valid() && k < |users| && IsUser(row)
      modifies this
      ensures Valid()
      ensures users == old(users)[k := row]
      ensures shuttles == old(shuttles) && locations == old(locations)
    {
      UserTableReplace(users, k, row);
      users := users[k := row];
    }

    /** Committing changes to the shuttle stored at position `k`. */
    method ReplaceShuttle(k: nat, row: Record)
      requires Valid() && k < |shuttles| && IsShuttle(row)
      modifies this
      ensures Valid()
      ensures shuttles == old(shuttles)[k := row]
      ensures users == old(users) && locations == old(locations)
    {
      ShuttleTableReplace(shuttles, k, row);
      shuttles := shuttles[k := row];
    }

    /** Committing changes to the location stored at position `k`. */
    method ReplaceLocation(k: nat, row: Record)
      requires Valid() && k < |locations| && IsLocation(row)
      modifies this
      ensures Valid()
      ensures locations == old(locations)[k := row]
      ensures users == old(users) && shuttles == old(shuttles)
    {
      LocationTableReplace(locations, k, row);
      locations := locations[k := row];
    }
  }
}
