/**
 * `update_entry` of app/api/shuttles/shuttles.py: the generic partial update
 * shared by the shuttle, location and user handlers.
 *
 * A payload is a JSON object, given as its (key, value) pairs in iteration
 * order. `convert_to_snake_case` lives in a helper module that is not part of
 * this model, so it enters as the parameter `toSnake`, about which nothing is
 * assumed.
 */
module UpdateEngine {
  import opened Common
  import opened Values

  type Payload = seq<(string, Value)>

  /**
   * The position of the last payload pair whose key converts to `f`: the one
   * whose value is left in the field when several keys convert alike.
   */
  function LastWriteIndex(payload: Payload, toSnake: string -> string, f: string): (r: Option<nat>)
    ensures r.Some? ==> r.value < |payload| && toSnake(payload[r.value].0) == f
    ensures r.Some? ==> forall j :: r.value < j < |payload| ==> toSnake(payload[j].0) != f
    ensures r.None? <==> forall j :: 0 <= j < |payload| ==> toSnake(payload[j].0) != f
    decreases |payload|
  {
    if |payload| == 0 then None
    else if toSnake(payload[|payload| - 1].0) == f then Some(|payload| - 1)
    else
      var init := payload[..|payload| - 1];
      assert forall j :: 0 <= j < |init| ==> init[j] == payload[j];
      LastWriteIndex(init, toSnake, f)
  }

  /** Extending the payload prefix by one pair: that pair wins exactly when its key converts to `f`. */
  lemma LastWriteStep(payload: Payload, i: nat, toSnake: string -> string, f: string)
    requires i < |payload|
    ensures LastWriteIndex(payload[..i + 1], toSnake, f)
         == if toSnake(payload[i].0) == f then Some(i) else LastWriteIndex(payload[..i], toSnake, f)
  {
    assert payload[..i + 1][..i] == payload[..i];
  }

  /** One turn of the loop of `update_entry` keeps its invariant. */
  lemma ApplyOnePair(payload: Payload, entry: Record, skip: seq<string>, toSnake: string -> string, i: nat, before: Record)
    requires i < |payload| && before.Keys == entry.Keys
    requires forall f :: f in entry ==> before[f] == FieldAfterUpdate(payload[..i], entry, skip, toSnake, f)
    ensures var p := toSnake(payload[i].0);
            var after := if p !in skip && p in before then before[p := payload[i].1] else before;
            && after.Keys == entry.Keys
            && forall f :: f in entry ==> after[f] == FieldAfterUpdate(payload[..i + 1], entry, skip, toSnake, f)
  {
    forall f | f in entry {
      LastWriteStep(payload, i, toSnake, f);
    }
  }

  /** Once the whole payload is applied, the entry is `UpdatedRecord`. */
  lemma AppliedWholePayload(payload: Payload, entry: Record, skip: seq<string>, toSnake: string -> string, updated: Record)
    requires updated.Keys == entry.Keys
    requires forall f :: f in entry ==> updated[f] == FieldAfterUpdate(payload[..|payload|], entry, skip, toSnake, f)
    ensures updated == UpdatedRecord(payload, entry, skip, toSnake)
  {
    assert payload[..|payload|] == payload;
  }

  /** The value of field `f` once the payload is applied with skip list `skip`. */
  function FieldAfterUpdate(payload: Payload, entry: Record, skip: seq<string>, toSnake: string -> string, f: string): Value
    requires f in entry
  {
    if f in skip then entry[f]
    else
      match LastWriteIndex(payload, toSnake, f)
      case None => entry[f]
      case Some(i) => payload[i].1
  }

  /** The entry after `update_entry`: the same fields, each as `FieldAfterUpdate` says. */
  function UpdatedRecord(payload: Payload, entry: Record, skip: seq<string>, toSnake: string -> string): (r: Record)
    ensures r.Keys == entry.Keys
  {
    map f | f in entry :: FieldAfterUpdate(payload, entry, skip, toSnake, f)
  }

  /**
   * The skip list after lines 334-338: the caller's list, extended at its end
   * with `created` and then `updated` where each is missing.
   */
  function ProtectedSkipList(skip: seq<string>): (r: seq<string>)
    ensures |r| >= |skip| && r[..|skip|] == skip
    ensures "created" in r && "updated" in r
    ensures forall x :: x in r <==> x in skip || x == "created" || x == "updated"
    ensures multiset(r)["created"] == if "created" in skip then multiset(skip)["created"] else 1
    ensures multiset(r)["updated"] == if "updated" in skip then multiset(skip)["updated"] else 1
  {
    var withCreated := if "created" in skip then skip else skip + ["created"];
    assert withCreated[..|skip|] == skip;
    if "updated" in withCreated then withCreated
    else
      assert (withCreated + ["updated"])[..|skip|] == skip;
      withCreated + ["updated"]
  }

  /**
   * `update_entry(payload, entry_object, skip_values)` with the skip list passed
   * explicitly. Returns the updated entry, the caller's skip list as the call
   * leaves it, and the result `True`.
   */
  method UpdateEntry(payload: Payload, entry: Record, skipValues: seq<string>, toSnake: string -> string)
    returns (updated: Record, skip: seq<string>, ok: bool)
    ensures skip == ProtectedSkipList(skipValues)
    ensures updated == UpdatedRecord(payload, entry, skip, toSnake)
    ensures ok
  {
    skip := skipValues;
    if "created" !in skip {
      skip := skip + ["created"];
    }
    if "updated" !in skip {
      skip := skip + ["updated"];
    }
    assert skip == ProtectedSkipList(skipValues);
    updated := entry;
    for i := 0 to |payload|
      invariant updated.Keys == entry.Keys
      invariant forall f :: f in entry ==> updated[f] == FieldAfterUpdate(payload[..i], entry, skip, toSnake, f)
    {
      var key, value := payload[i].0, payload[i].1;
      var convertedProp := toSnake(key);
      ApplyOnePair(payload, entry, skip, toSnake, i, updated);
      if convertedProp !in skip && convertedProp in updated {
        updated := updated[convertedProp := value];
      }
    }
    AppliedWholePayload(payload, entry, skip, toSnake, updated);
    ok := true;
  }

  /** `update_entry` never changes `created` or `updated`, whatever the payload. */
  lemma UpdateKeepsTimestamps(payload: Payload, entry: Record, skipValues: seq<string>, toSnake: string -> string)
    ensures "created" in entry ==>
      UpdatedRecord(payload, entry, ProtectedSkipList(skipValues), toSnake)["created"] == entry["created"]
    ensures "updated" in entry ==>
      UpdatedRecord(payload, entry, ProtectedSkipList(skipValues), toSnake)["updated"] == entry["updated"]
  {
  }

  /** A field that no payload key converts to keeps its value. */
  lemma UnnamedFieldKeepsValue(payload: Payload, entry: Record, skip: seq<string>, toSnake: string -> string, f: string)
    requires f in entry
    requires forall j :: 0 <= j < |payload| ==> toSnake(payload[j].0) != f
    ensures UpdatedRecord(payload, entry, skip, toSnake)[f] == entry[f]
  {
  }

  /** A surviving key that no later key overrides sets its field to exactly its raw value. */
  lemma SurvivingKeySetsField(payload: Payload, entry: Record, skip: seq<string>, toSnake: string -> string, i: nat)
    requires i < |payload|
    requires toSnake(payload[i].0) in entry && toSnake(payload[i].0) !in skip
    requires forall j :: i < j < |payload| ==> toSnake(payload[j].0) != toSnake(payload[i].0)
    ensures UpdatedRecord(payload, entry, skip, toSnake)[toSnake(payload[i].0)] == payload[i].1
  {
    var f := toSnake(payload[i].0);
    var k := LastWriteIndex(payload, toSnake, f);
    assert k.Some?;
    assert k.value == i;
  }

  /** A position holding `f` with no later pair converting to `f` is the one `LastWriteIndex` finds. */
  lemma LastWriteIndexUnique(payload: Payload, toSnake: string -> string, f: string, i: nat)
    requires i < |payload| && toSnake(payload[i].0) == f
    requires forall j :: i < j < |payload| ==> toSnake(payload[j].0) != f
    ensures LastWriteIndex(payload, toSnake, f) == Some(i)
  {
    var r := LastWriteIndex(payload, toSnake, f);
    assert r.Some?;
    assert !(r.value < i);
    assert !(r.value > i);
  }

  /**
   * The value that `LastWriteIndex` picks for `f` is the same with or without
   * one payload pair whose key converts to something else.
   */
  lemma LastWriteIgnoresOtherKey(p1: Payload, x: (string, Value), p2: Payload, toSnake: string -> string, f: string)
    requires toSnake(x.0) != f
    ensures LastWriteIndex(p1 + [x] + p2, toSnake, f).None? <==> LastWriteIndex(p1 + p2, toSnake, f).None?
    ensures LastWriteIndex(p1 + [x] + p2, toSnake, f).Some? ==>
      (p1 + [x] + p2)[LastWriteIndex(p1 + [x] + p2, toSnake, f).value].1
        == (p1 + p2)[LastWriteIndex(p1 + p2, toSnake, f).value].1
  {
    var with, without := p1 + [x] + p2, p1 + p2;
    // Position `k` of `without` is position `k` of `with` before `x`, `k + 1` after it.
    assert forall k :: 0 <= k < |p1| ==> with[k] == without[k];
    assert forall k :: |p1| <= k < |without| ==> with[k + 1] == without[k];
    assert with[|p1|] == x;
    match LastWriteIndex(without, toSnake, f)
    case None =>
      forall k | 0 <= k < |with| ensures toSnake(with[k].0) != f {
        if k > |p1| {
          assert with[k] == without[k - 1];
        }
      }
    case Some(j) =>
      var i := if j < |p1| then j else j + 1;
      forall k | i < k < |with| ensures toSnake(with[k].0) != f {
        if k > |p1| {
          assert with[k] == without[k - 1];
        }
      }
      LastWriteIndexUnique(with, toSnake, f, i);
  }

  /**
   * A payload key whose converted name is protected or names no field is
   * skipped without effect: dropping it from the payload changes nothing.
   */
  lemma SkippedKeyHasNoEffect(p1: Payload, x: (string, Value), p2: Payload, entry: Record, skip: seq<string>, toSnake: string -> string)
    requires toSnake(x.0) !in entry || toSnake(x.0) in skip
    ensures UpdatedRecord(p1 + [x] + p2, entry, skip, toSnake) == UpdatedRecord(p1 + p2, entry, skip, toSnake)
  {
    forall f | f in entry && f !in skip
      ensures FieldAfterUpdate(p1 + [x] + p2, entry, skip, toSnake, f) == FieldAfterUpdate(p1 + p2, entry, skip, toSnake, f)
    {
      LastWriteIgnoresOtherKey(p1, x, p2, toSnake, f);
    }
  }

  /** How `skip_values` is bound when `update_entry` is called. */
  datatype SkipArgument =
    | ListTypeObject         // the default as written: `skip_values=list`, the type object itself
    | Given(items: seq<string>)

  /** What a call of `update_entry` does: raise, or return with its effects. */
  datatype EntryOutcome =
    | Raised(error: PyError)
    | Returned(entry: Record, skipValues: seq<string>, result: bool)

  /**
   * `update_entry` as written. A caller that omits `skip_values` gets the type
   * `list` itself, and `'created' not in list` raises TypeError at line 334,
   * before any field is touched.
   */
  function UpdateEntryAsWritten(payload: Payload, entry: Record, skip: SkipArgument, toSnake: string -> string): (o: EntryOutcome)
    ensures o.Raised? <==> skip.ListTypeObject?
    ensures o.Raised? ==> o.error == TypeError
    ensures skip.Given? ==> o.Returned? && o.result
    ensures skip.Given? ==> o.skipValues == ProtectedSkipList(skip.items)
    ensures skip.Given? ==> o.entry == UpdatedRecord(payload, entry, o.skipValues, toSnake)
  {
    match skip
    case ListTypeObject => Raised(TypeError)
    case Given(items) =>
      var protected := ProtectedSkipList(items);
      Returned(UpdatedRecord(payload, entry, protected, toSnake), protected, true)
  }

  /**
   * The discrepancy on a concrete call: renaming a location through
   * `update_location` (which omits the skip list) raises, where an explicit
   * empty list applies the rename.
   */
  lemma OmittedSkipListRaises()
    ensures var entry := map["name" := Str("Library"), "created" := Time(0)];
            var payload := [("name", Str("Main Library"))];
            var toSnake := (k: string) => k;
            && UpdateEntryAsWritten(payload, entry, ListTypeObject, toSnake) == Raised(TypeError)
            && UpdateEntryAsWritten(payload, entry, Given([]), toSnake).Returned?
            && UpdateEntryAsWritten(payload, entry, Given([]), toSnake).entry["name"] == Str("Main Library")
  {
    var entry := map["name" := Str("Library"), "created" := Time(0)];
    var payload := [("name", Str("Main Library"))];
    var toSnake := (k: string) => k;
    SurvivingKeySetsField(payload, entry, ProtectedSkipList([]), toSnake, 0);
  }
}
