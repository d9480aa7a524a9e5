/**
 * The two ORM queries the handlers use: `filter_by(**args).first()` and
 * `filter_by(**args).all()` over a table held as a sequence of rows in
 * storage order.
 */
module Query {
  import opened Common
  import opened Values

  /**
   * `filter_by(**args)` keeps a row when every named column equals the
   * argument, compared as stored (an enum member equals its wire string).
   */
  predicate Matches(row: Record, args: map<string, Value>): (r: bool)
    ensures r ==> args.Keys <= row.Keys
    ensures args == map[] ==> r
  {
    forall k :: k in args ==> k in row && Rendered(row[k]) == Rendered(args[k])
  }

  /** Index of the first matching row, in storage order. */
  function FirstMatch(rows: seq<Record>, args: map<string, Value>): (r: Option<nat>)
    ensures r.Some? ==> r.value < |rows| && Matches(rows[r.value], args)
    ensures r.Some? ==> forall j :: 0 <= j < r.value ==> !Matches(rows[j], args)
    ensures r.None? <==> forall j :: 0 <= j < |rows| ==> !Matches(rows[j], args)
    decreases |rows|
  {
    if |rows| == 0 then None
    else if Matches(rows[0], args) then Some(0)
    else
      match FirstMatch(rows[1..], args)
      case None => None
      case Some(k) => assert rows[k + 1] == rows[1..][k]; Some(k + 1)
  }

  /** `filter_by(**args).first()`. */
  function First(rows: seq<Record>, args: map<string, Value>): (r: Option<Record>)
    ensures r.Some? ==> r.value in rows && Matches(r.value, args)
    ensures r.None? <==> forall x :: x in rows ==> !Matches(x, args)
  {
    match FirstMatch(rows, args)
    case None => None
    case Some(k) => Some(rows[k])
  }

  /** `filter_by(**args).all()`: the matching rows, in storage order. */
  function Filtered(rows: seq<Record>, args: map<string, Value>): (r: seq<Record>)
    ensures forall x :: x in r <==> x in rows && Matches(x, args)
    ensures |r| <= |rows|
    decreases |rows|
  {
    if |rows| == 0 then []
    else
      var init, last := rows[..|rows| - 1], rows[|rows| - 1];
      assert rows == init + [last];
      Filtered(init, args) + (if Matches(last, args) then [last] else [])
  }

  /**
   * `.all()` keeps storage order and multiplicity: one more stored row adds
   * itself at the end exactly when it matches.
   */
  lemma FilteredAppend(rows: seq<Record>, row: Record, args: map<string, Value>)
    ensures Filtered(rows + [row], args) == Filtered(rows, args) + (if Matches(row, args) then [row] else [])
  {
    assert (rows + [row])[..|rows + [row]| - 1] == rows;
  }

  /** A query that names a column the entity lacks raises instead of answering. */
  function FirstChecked(columns: set<string>, rows: seq<Record>, args: map<string, Value>): (r: Result<Option<Record>, PyError>)
    ensures r.Err? <==> !(args.Keys <= columns)
    ensures r.Err? ==> r.error == NoSuchProperty(args.Keys - columns)
    ensures r.Ok? ==> r.value == First(rows, args)
  {
    if args.Keys <= columns then Ok(First(rows, args))
    else Err(NoSuchProperty(args.Keys - columns))
  }

  /** No match in a table means the filtered list is empty, and conversely. */
  lemma {:induction false} FilteredEmpty(rows: seq<Record>, args: map<string, Value>)
    ensures Filtered(rows, args) == [] <==> forall x :: x in rows ==> !Matches(x, args)
  {
    if Filtered(rows, args) != [] {
      var x := Filtered(rows, args)[0];
      assert x in Filtered(rows, args);
    }
  }

  /** `.first()` answers exactly when `.all()` is not empty. */
  lemma FirstAgreesWithFiltered(rows: seq<Record>, args: map<string, Value>)
    ensures First(rows, args).None? <==> Filtered(rows, args) == []
  {
    FilteredEmpty(rows, args);
  }

  /** With no arguments `filter_by` restricts nothing: `.all()` is the whole table, in order. */
  lemma {:induction false} FilteredNoArgs(rows: seq<Record>)
    ensures Filtered(rows, map[]) == rows
    decreases |rows|
  {
    if |rows| > 0 {
      var init := rows[..|rows| - 1];
      FilteredNoArgs(init);
      assert rows == init + [rows[|rows| - 1]];
    }
  }

  /** A row appended after rows that all fail the query is what `.first()` finds. */
  lemma FirstOfAppended(rows: seq<Record>, row: Record, args: map<string, Value>)
    requires forall x :: x in rows ==> !Matches(x, args)
    requires Matches(row, args)
    ensures First(rows + [row], args) == Some(row)
  {
    var all := rows + [row];
    forall j | 0 <= j < |rows| ensures !Matches(all[j], args) {
      assert all[j] == rows[j] && rows[j] in rows;
    }
    assert all[|rows|] == row;
    assert FirstMatch(all, args).Some?;
  }
}
