/**
 * The API-key store and validator of lib/api-keys.js: key generation, the rows of
 * the `api_keys` table, the five lifecycle operations (list, create, update,
 * delete, toggle status), the `last_used` touch and the validation verdict.
 *
 * Each store round-trip is specified by a pure step function from the old rows
 * to a result and the new rows; the `KeyTable` class holds the table and applies
 * those steps in place. A store failure other than "no row" is an oracle
 * argument `fault`; when it is `Some(message)` the store wrote nothing.
 */
module ApiKeys {

  import opened Store
  import opened JsNumbers
  import opened KeyGenerator

  /** Owner reference (a user id of the authentication service). */
  type UserId = string

  /** One row of the `api_keys` table; `None` is SQL `NULL`, timestamps are integers. */
  datatype ApiKeyRecord = ApiKeyRecord(
    id: nat,
    name: string,
    description: Option<string>,
    permissions: string,
    usageLimit: Option<int>,
    apiKey: string,
    isActive: bool,
    createdAt: int,
    lastUsed: Option<int>,
    userId: Option<UserId>)

  /**
   * The `keyData` of a create or the `updates` of an update: the form's fields,
   * each possibly absent (`undefined`, which the store client leaves out of the row).
   */
  datatype KeyInput = KeyInput(
    name: Option<string>,
    description: Option<string>,
    permissions: Option<string>,
    usageLimit: Option<string>)

  // ---------------------------------------------------------- normalisation

  const DefaultPermissions: string := "read"
  const DefaultUsageLimit: int := 1000

  /** `parseInt(usageLimit) || 1000`: `NaN` and zero fall back to the default. */
  function UsageLimit(u: Option<string>): (limit: int)
    ensures limit != 0
    ensures ParseOptional(u).NaN? ==> limit == DefaultUsageLimit
    ensures ParseOptional(u).Int? && ParseOptional(u).value == 0 ==> limit == DefaultUsageLimit
    ensures ParseOptional(u).Int? && ParseOptional(u).value != 0 ==> limit == ParseOptional(u).value
  {
    match ParseOptional(u)
    case NaN => DefaultUsageLimit
    case Int(v) => if v == 0 then DefaultUsageLimit else v
  }

  /** A non-zero limit written as text is stored back unchanged; the text "0" becomes 1000. */
  lemma {:induction false} UsageLimitRoundTrip(n: int)
    ensures UsageLimit(Some(IntToString(n))) == if n == 0 then DefaultUsageLimit else n
  {
    ParseIntToString(n);
  }

  // ------------------------------------------------------------ table facts

  predicate UniqueIds(rows: seq<ApiKeyRecord>)
  {
    forall i, j :: 0 <= i < j < |rows| ==> rows[i].id != rows[j].id
  }

  predicate UniqueApiKeys(rows: seq<ApiKeyRecord>)
  {
    forall i, j :: 0 <= i < j < |rows| ==> rows[i].apiKey != rows[j].apiKey
  }

  predicate HasId(rows: seq<ApiKeyRecord>, id: nat)
  {
    exists i :: 0 <= i < |rows| && rows[i].id == id
  }

  predicate KeyInUse(rows: seq<ApiKeyRecord>, key: string)
  {
    exists i :: 0 <= i < |rows| && rows[i].apiKey == key
  }

  /** The row with primary key `id`. */
  function RowWithId(rows: seq<ApiKeyRecord>, id: nat): (r: ApiKeyRecord)
    requires HasId(rows, id)
    ensures r in rows && r.id == id
  {
    if rows[0].id == id then rows[0]
    else
      var i :| 0 <= i < |rows| && rows[i].id == id;
      assert rows[1..][i - 1].id == id;
      RowWithId(rows[1..], id)
  }

  /** `.update(...).eq("id", id)`: applies `f` to the rows with that id. */
  function MapById(rows: seq<ApiKeyRecord>, id: nat, f: ApiKeyRecord -> ApiKeyRecord): (r: seq<ApiKeyRecord>)
    ensures |r| == |rows|
    ensures forall i :: 0 <= i < |rows| && rows[i].id != id ==> r[i] == rows[i]
    ensures forall i :: 0 <= i < |rows| && rows[i].id == id ==> r[i] == f(rows[i])
  {
    if rows == [] then []
    else [if rows[0].id == id then f(rows[0]) else rows[0]] + MapById(rows[1..], id, f)
  }

  /** `.delete().eq("id", id)`: the rows without that id, in their order. */
  function RemoveId(rows: seq<ApiKeyRecord>, id: nat): (r: seq<ApiKeyRecord>)
    ensures forall x :: x in r <==> x in rows && x.id != id
    ensures |r| <= |rows|
  {
    if rows == [] then []
    else (if rows[0].id == id then [] else [rows[0]]) + RemoveId(rows[1..], id)
  }

  /** Removing an id commutes with concatenation, so the survivors keep their order. */
  lemma {:induction false} RemoveIdKeepsOrder(a: seq<ApiKeyRecord>, b: seq<ApiKeyRecord>, id: nat)
    ensures RemoveId(a + b, id) == RemoveId(a, id) + RemoveId(b, id)
  {
    if a != [] {
      assert (a + b)[1..] == a[1..] + b;
      RemoveIdKeepsOrder(a[1..], b, id);
    } else {
      assert a + b == b;
    }
  }

  // ------------------------------------------------------------------ list

  predicate SortedByCreatedDesc(s: seq<ApiKeyRecord>)
  {
    forall i, j :: 0 <= i < j < |s| ==> s[i].createdAt >= s[j].createdAt
  }

  /** The rows whose `user_id` is `owner` (`.eq("user_id", owner)`), in table order. */
  function RowsOwnedBy(rows: seq<ApiKeyRecord>, owner: UserId): (r: seq<ApiKeyRecord>)
    ensures forall x :: x in r <==> x in rows && x.userId == Some(owner)
  {
    if rows == [] then []
    else (if rows[0].userId == Some(owner) then [rows[0]] else []) + RowsOwnedBy(rows[1..], owner)
  }

  /** The rows `getApiKeys(userId)` selects: filtered only when `userId` is truthy. */
  function Selected(rows: seq<ApiKeyRecord>, userId: Option<UserId>): seq<ApiKeyRecord>
  {
    if Truthy(userId) then RowsOwnedBy(rows, userId.value) else rows
  }

  function InsertByCreated(x: ApiKeyRecord, s: seq<ApiKeyRecord>): (r: seq<ApiKeyRecord>)
    requires SortedByCreatedDesc(s)
    ensures SortedByCreatedDesc(r)
    ensures multiset(r) == multiset(s) + multiset{x}
  {
    if s == [] || x.createdAt >= s[0].createdAt then
      PrependSorted(x, s);
      [x] + s
    else
      var rest := InsertByCreated(x, s[1..]);
      InsertBehindHead(x, s, rest);
      [s[0]] + rest
  }

  lemma PrependSorted(x: ApiKeyRecord, s: seq<ApiKeyRecord>)
    requires SortedByCreatedDesc(s)
    requires s == [] || x.createdAt >= s[0].createdAt
    ensures SortedByCreatedDesc([x] + s)
  {
    var r := [x] + s;
    forall i, j | 0 <= i < j < |r| ensures r[i].createdAt >= r[j].createdAt {
      if i == 0 {
        assert r[j] == s[j - 1];
      } else {
        assert r[i] == s[i - 1] && r[j] == s[j - 1];
      }
    }
  }

  lemma InsertBehindHead(x: ApiKeyRecord, s: seq<ApiKeyRecord>, rest: seq<ApiKeyRecord>)
    requires s != [] && SortedByCreatedDesc(s) && x.createdAt < s[0].createdAt
    requires SortedByCreatedDesc(rest) && multiset(rest) == multiset(s[1..]) + multiset{x}
    ensures SortedByCreatedDesc([s[0]] + rest)
    ensures multiset([s[0]] + rest) == multiset(s) + multiset{x}
  {
    assert s == [s[0]] + s[1..];
    forall y | y in rest ensures y.createdAt <= s[0].createdAt {
      assert y in multiset(rest);
      if y != x {
        assert y in multiset(s[1..]);
        var j :| 0 <= j < |s[1..]| && s[1..][j] == y;
        assert s[j + 1] == y;
      }
    }
    var r := [s[0]] + rest;
    forall i, j | 0 <= i < j < |r| ensures r[i].createdAt >= r[j].createdAt {
      if i == 0 {
        assert r[j] == rest[j - 1];
      } else {
        assert r[i] == rest[i - 1] && r[j] == rest[j - 1];
      }
    }
  }

  /** `.order("created_at", { ascending: false })`, ties in no promised order. */
  function SortByCreatedDesc(s: seq<ApiKeyRecord>): (r: seq<ApiKeyRecord>)
    ensures SortedByCreatedDesc(r)
    ensures multiset(r) == multiset(s)
  {
    if s == [] then []
    else
      assert s == [s[0]] + s[1..];
      InsertByCreated(s[0], SortByCreatedDesc(s[1..]))
  }

  // ------------------------------------------------------------ write steps

  /** The outcome of one store round-trip: what the call returns and the rows after it. */
  datatype Step<+T> = Step(result: Result<T>, rows: seq<ApiKeyRecord>)

  const NameMissing: string := "null value in column \"name\" of relation \"api_keys\" violates not-null constraint"
  const DuplicateApiKey: string := "duplicate key value violates unique constraint \"api_keys_api_key_key\""

  /** The range of the `usage_limit INTEGER` column: a signed 32-bit integer. */
  const IntegerMin: int := -0x8000_0000
  const IntegerMax: int := 0x7FFF_FFFF

  predicate FitsInteger(n: int)
  {
    IntegerMin <= n <= IntegerMax
  }

  /** The store's error (SQLSTATE 22003) when a written limit does not fit the column. */
  function LimitOutOfRange(n: int): string
  {
    "value \"" + IntToString(n) + "\" is out of range for type integer"
  }

  /** The row `createApiKey` inserts: lines 62-70 completed by the table's defaults. */
  function NewRecord(id: nat, name: string, keyData: KeyInput, userId: Option<UserId>, key: string, now: int): ApiKeyRecord
  {
    ApiKeyRecord(
      id := id,
      name := name,
      description := Some(OrElse(keyData.description, "")),
      permissions := OrElse(keyData.permissions, DefaultPermissions),
      usageLimit := Some(UsageLimit(keyData.usageLimit)),
      apiKey := key,
      isActive := true,
      createdAt := now,
      lastUsed := None,
      userId := userId)
  }

  /** `createApiKey`: insert a fresh row, or report the store's failure. */
  function CreateStep(rows: seq<ApiKeyRecord>, nextId: nat, keyData: KeyInput, userId: Option<UserId>,
                      key: string, now: int, fault: Option<string>): (s: Step<ApiKeyRecord>)
    ensures s.result.Ok? <==>
              fault.None? && FitsInteger(UsageLimit(keyData.usageLimit)) && keyData.name.Some? && !KeyInUse(rows, key)
    ensures fault.Some? ==> s.result == Err(fault.value)
    ensures fault.None? && !FitsInteger(UsageLimit(keyData.usageLimit)) ==>
              s.result == Err(LimitOutOfRange(UsageLimit(keyData.usageLimit)))
    ensures s.result.Err? ==> s.rows == rows
    ensures s.result.Ok? ==>
      var r := s.result.value;
      && s.rows == rows + [r]
      && r.id == nextId && r.apiKey == key && r.createdAt == now && r.userId == userId
      && r.isActive && r.lastUsed.None?
      && r.name == keyData.name.value
      && r.description == Some(if Truthy(keyData.description) then keyData.description.value else "")
      && r.permissions == (if Truthy(keyData.permissions) then keyData.permissions.value else DefaultPermissions)
      && r.usageLimit == Some(UsageLimit(keyData.usageLimit)) && r.usageLimit.value != 0
  {
    if fault.Some? then Step(Err(fault.value), rows)
    else if !FitsInteger(UsageLimit(keyData.usageLimit)) then Step(Err(LimitOutOfRange(UsageLimit(keyData.usageLimit))), rows)
    else if keyData.name.None? then Step(Err(NameMissing), rows)
    else if KeyInUse(rows, key) then Step(Err(DuplicateApiKey), rows)
    else
      var r := NewRecord(nextId, keyData.name.value, keyData, userId, key, now);
      Step(Ok(r), rows + [r])
  }

  /** The columns `updateApiKey` writes; an absent field leaves its column as it was. */
  function Edited(r: ApiKeyRecord, u: KeyInput): (e: ApiKeyRecord)
    ensures e.id == r.id && e.apiKey == r.apiKey && e.isActive == r.isActive
    ensures e.createdAt == r.createdAt && e.lastUsed == r.lastUsed && e.userId == r.userId
    ensures e.name == (if u.name.Some? then u.name.value else r.name)
    ensures e.description == (if u.description.Some? then u.description else r.description)
    ensures e.permissions == (if u.permissions.Some? then u.permissions.value else r.permissions)
    ensures e.usageLimit == Some(UsageLimit(u.usageLimit)) && e.usageLimit.value != 0
  {
    r.(name := if u.name.Some? then u.name.value else r.name,
       description := if u.description.Some? then u.description else r.description,
       permissions := if u.permissions.Some? then u.permissions.value else r.permissions,
       usageLimit := Some(UsageLimit(u.usageLimit)))
  }

  /** `updateApiKey(id, updates)`. */
  function UpdateStep(rows: seq<ApiKeyRecord>, id: nat, u: KeyInput, fault: Option<string>): (s: Step<ApiKeyRecord>)
    requires UniqueIds(rows)
    ensures fault.Some? ==> s == Step(Err(fault.value), rows)
    ensures fault.None? && !FitsInteger(UsageLimit(u.usageLimit)) ==>
              s == Step(Err(LimitOutOfRange(UsageLimit(u.usageLimit))), rows)
    ensures fault.None? && FitsInteger(UsageLimit(u.usageLimit)) && !HasId(rows, id) ==>
              s == Step(Err(NoSingleRow), rows)
    ensures fault.None? && FitsInteger(UsageLimit(u.usageLimit)) && HasId(rows, id) ==>
      && s.result.Ok? && s.result.value.id == id && s.result.value in s.rows
      && |s.rows| == |rows|
      && forall i :: 0 <= i < |rows| ==>
           if rows[i].id == id then s.rows[i] == Edited(rows[i], u) else s.rows[i] == rows[i]
  {
    if fault.Some? then Step(Err(fault.value), rows)
    else if !FitsInteger(UsageLimit(u.usageLimit)) then Step(Err(LimitOutOfRange(UsageLimit(u.usageLimit))), rows)
    else if !HasId(rows, id) then Step(Err(NoSingleRow), rows)
    else
      var r := RowWithId(rows, id);
      var after := MapById(rows, id, x => Edited(x, u));
      assert exists i :: 0 <= i < |rows| && rows[i] == r;
      Step(Ok(Edited(r, u)), after)
  }

  /** `deleteApiKey(id)`: no `.single()`, so deleting a missing id succeeds. */
  function DeleteStep(rows: seq<ApiKeyRecord>, id: nat, fault: Option<string>): (s: Step<()>)
    ensures fault.Some? ==> s == Step(Err(fault.value), rows)
    ensures fault.None? ==> s.result.Ok? && !HasId(s.rows, id)
    ensures fault.None? ==> forall x :: x in rows && x.id != id ==> x in s.rows
    ensures forall x :: x in s.rows ==> x in rows
  {
    if fault.Some? then Step(Err(fault.value), rows)
    else Step(Ok(()), RemoveId(rows, id))
  }

  /** `toggleApiKeyStatus(id, isActive)`: writes `is_active` only. */
  function ToggleStep(rows: seq<ApiKeyRecord>, id: nat, isActive: bool, fault: Option<string>): (s: Step<ApiKeyRecord>)
    requires UniqueIds(rows)
    ensures fault.Some? ==> s == Step(Err(fault.value), rows)
    ensures fault.None? && !HasId(rows, id) ==> s == Step(Err(NoSingleRow), rows)
    ensures fault.None? && HasId(rows, id) ==>
      && s.result.Ok? && s.result.value.id == id && s.result.value.isActive == isActive
      && |s.rows| == |rows|
      && forall i :: 0 <= i < |rows| ==>
           if rows[i].id == id then s.rows[i] == rows[i].(isActive := isActive) else s.rows[i] == rows[i]
  {
    if fault.Some? then Step(Err(fault.value), rows)
    else if !HasId(rows, id) then Step(Err(NoSingleRow), rows)
    else
      var r := RowWithId(rows, id);
      Step(Ok(r.(isActive := isActive)), MapById(rows, id, (x: ApiKeyRecord) => x.(isActive := isActive)))
  }

  /** Toggling to the same status twice leaves the rows as the first toggle did. */
  lemma {:induction false} ToggleIdempotent(rows: seq<ApiKeyRecord>, id: nat, isActive: bool)
    requires UniqueIds(rows)
    ensures UniqueIds(ToggleStep(rows, id, isActive, None).rows)
    ensures var once := ToggleStep(rows, id, isActive, None).rows;
            ToggleStep(once, id, isActive, None).rows == once
  {
    var once := ToggleStep(rows, id, isActive, None).rows;
    assert |once| == |rows|;
    assert forall i :: 0 <= i < |rows| ==> once[i].id == rows[i].id;
    assert UniqueIds(once);
    if HasId(rows, id) {
      var k :| 0 <= k < |rows| && rows[k].id == id;
      assert once[k].id == id;
      var twice := ToggleStep(once, id, isActive, None).rows;
      forall i | 0 <= i < |once|
        ensures twice[i] == once[i]
      {
        if rows[i].id == id {
          assert once[i] == rows[i].(isActive := isActive);
        }
      }
    }
  }

  /** `updateLastUsed(id)`: writes `last_used` only. */
  function TouchStep(rows: seq<ApiKeyRecord>, id: nat, now: int, fault: Option<string>): (s: Step<ApiKeyRecord>)
    requires UniqueIds(rows)
    ensures fault.Some? ==> s == Step(Err(fault.value), rows)
    ensures fault.None? && !HasId(rows, id) ==> s == Step(Err(NoSingleRow), rows)
    ensures fault.None? && HasId(rows, id) ==>
      && s.result.Ok? && s.result.value.id == id && s.result.value.lastUsed == Some(now)
      && |s.rows| == |rows|
      && forall i :: 0 <= i < |rows| ==>
           if rows[i].id == id then s.rows[i] == rows[i].(lastUsed := Some(now)) else s.rows[i] == rows[i]
  {
    if fault.Some? then Step(Err(fault.value), rows)
    else if !HasId(rows, id) then Step(Err(NoSingleRow), rows)
    else
      var r := RowWithId(rows, id);
      Step(Ok(r.(lastUsed := Some(now))), MapById(rows, id, (x: ApiKeyRecord) => x.(lastUsed := Some(now))))
  }

  // ------------------------------------------------------------- validation

  /** The columns `validateApiKey` selects. */
  datatype KeyData = KeyData(id: nat, name: string, isActive: bool)

  /** The `{ isValid, keyData, error }` value `validateApiKey` resolves to. */
  datatype Validation = Validation(isValid: bool, keyData: Option<KeyData>, error: Option<string>)

  /** The rows matching `.eq("api_key", candidate).eq("is_active", true)`. */
  function ActiveMatches(rows: seq<ApiKeyRecord>, candidate: string): (m: seq<ApiKeyRecord>)
    ensures forall x :: x in m <==> x in rows && x.apiKey == candidate && x.isActive
  {
    if rows == [] then []
    else
      (if rows[0].apiKey == candidate && rows[0].isActive then [rows[0]] else [])
      + ActiveMatches(rows[1..], candidate)
  }

  /**
   * The verdict of `validateApiKey`: valid when `.single()` finds the one active
   * row with that key; "no row" (PGRST116) is a plain negative; any other store
   * failure is a negative carrying its message.
   */
  function Verdict(rows: seq<ApiKeyRecord>, candidate: string, lookupFault: Option<string>): (v: Validation)
    ensures lookupFault.Some? ==> v == Validation(false, None, lookupFault)
    ensures lookupFault.None? ==> v.error.None?
    ensures v.isValid <==> v.keyData.Some?
    ensures v.isValid ==> exists i :: 0 <= i < |rows| && rows[i].apiKey == candidate && rows[i].isActive
                                      && v.keyData == Some(KeyData(rows[i].id, rows[i].name, true))
  {
    if lookupFault.Some? then Validation(false, None, lookupFault)
    else
      match Single(ActiveMatches(rows, candidate))
      case None => Validation(false, None, None)
      case Some(r) =>
        assert exists i :: 0 <= i < |rows| && rows[i] == r;
        Validation(true, Some(KeyData(r.id, r.name, r.isActive)), None)
  }

  /** With unique keys at most one row is an active match. */
  lemma {:induction false} AtMostOneActiveMatch(rows: seq<ApiKeyRecord>, candidate: string)
    requires UniqueApiKeys(rows)
    ensures |ActiveMatches(rows, candidate)| <= 1
  {
    if rows != [] {
      var rest := rows[1..];
      assert UniqueApiKeys(rest) by {
        forall i, j | 0 <= i < j < |rest| ensures rest[i].apiKey != rest[j].apiKey {
          assert rest[i] == rows[i + 1] && rest[j] == rows[j + 1];
        }
      }
      AtMostOneActiveMatch(rest, candidate);
      if rows[0].apiKey == candidate && rows[0].isActive {
        forall x | x in rest
          ensures x.apiKey != candidate
        {
          var j :| 0 <= j < |rest| && rest[j] == x;
          assert rows[j + 1] == x;
        }
        NoActiveMatch(rest, candidate);
      }
    }
  }

  lemma {:induction false} NoActiveMatch(rows: seq<ApiKeyRecord>, candidate: string)
    requires forall x :: x in rows ==> x.apiKey != candidate
    ensures ActiveMatches(rows, candidate) == []
  {
    if rows != [] {
      NoActiveMatch(rows[1..], candidate);
    }
  }

  /** The decision table: valid exactly when the key exists, is active and the lookup did not fail. */
  lemma VerdictTable(rows: seq<ApiKeyRecord>, candidate: string, lookupFault: Option<string>)
    requires UniqueApiKeys(rows)
    ensures Verdict(rows, candidate, lookupFault).isValid <==>
              lookupFault.None? && exists i :: 0 <= i < |rows| && rows[i].apiKey == candidate && rows[i].isActive
  {
    if lookupFault.None? && exists i :: 0 <= i < |rows| && rows[i].apiKey == candidate && rows[i].isActive {
      var i :| 0 <= i < |rows| && rows[i].apiKey == candidate && rows[i].isActive;
      assert rows[i] in ActiveMatches(rows, candidate);
      AtMostOneActiveMatch(rows, candidate);
    }
  }

  /**
   * `validateApiKey(candidate)`: the verdict, and the rows after the best-effort
   * `last_used` touch of the matched key, whose own failure is discarded.
   */
  function ValidateStep(rows: seq<ApiKeyRecord>, candidate: string, now: int,
                        lookupFault: Option<string>, touchFault: Option<string>): (s: (Validation, seq<ApiKeyRecord>))
    requires UniqueIds(rows)
    ensures s.0 == Verdict(rows, candidate, lookupFault)
    ensures !s.0.isValid || touchFault.Some? ==> s.1 == rows
    ensures s.0.isValid && touchFault.None? ==>
      && |s.1| == |rows|
      && forall i :: 0 <= i < |rows| ==>
           if rows[i].id == s.0.keyData.value.id then s.1[i] == rows[i].(lastUsed := Some(now)) else s.1[i] == rows[i]
  {
    var v := Verdict(rows, candidate, lookupFault);
    if v.isValid then (v, TouchStep(rows, v.keyData.value.id, now, touchFault).rows)
    else (v, rows)
  }

  // ------------------------------------------------------------- the table

  /** The `api_keys` table, with the primary-key and unique-key constraints as its invariant. */
  class KeyTable {
    var rows: seq<ApiKeyRecord>
    /** The id the next insert receives (the table's fresh-id generator). */
    var nextId: nat

    ghost predicate Valid()
      reads this
    {
      && UniqueIds(rows)
      && UniqueApiKeys(rows)
      && forall i :: 0 <= i < |rows| ==> rows[i].id < nextId
    }

    constructor ()
      ensures Valid() && rows == [] && nextId == 0
    {
      rows := [];
      nextId := 0;
    }

    /** `getApiKeys(userId)`: the selected rows, newest first. */
    method GetApiKeys(userId: Option<UserId>, fault: Option<string>) returns (res: Result<seq<ApiKeyRecord>>)
      ensures fault.Some? ==> res == Err(fault.value)
      ensures fault.None? ==> res.Ok? && SortedByCreatedDesc(res.value)
      ensures fault.None? ==> multiset(res.value) == multiset(Selected(rows, userId))
      ensures fault.None? && Truthy(userId) ==> forall x :: x in res.value ==> x.userId == userId
    {
      if fault.Some? {
        return Err(fault.value);
      }
      var selected := Selected(rows, userId);
      var listed := SortByCreatedDesc(selected);
      assert forall x :: x in listed ==> x in multiset(selected);
      res := Ok(listed);
    }

    /** `createApiKey(keyData, userId)`: a freshly generated key, never one from the input. */
    method CreateApiKey(keyData: KeyInput, userId: Option<UserId>, draw: seq<nat>, now: int, fault: Option<string>)
      returns (res: Result<ApiKeyRecord>)
      requires Valid() && IsRandomDraw(draw)
      modifies this
      ensures Valid()
      ensures Step(res, rows) == CreateStep(old(rows), old(nextId), keyData, userId, KeyFor(draw), now, fault)
      ensures res.Ok? ==> IsGeneratedKey(res.value.apiKey)
      ensures nextId == if res.Ok? then old(nextId) + 1 else old(nextId)
    {
      var key := GenerateApiKey(draw);
      var s := CreateStep(rows, nextId, keyData, userId, key, now, fault);
      res, rows := s.result, s.rows;
      if res.Ok? {
        nextId := nextId + 1;
      }
    }

    /** `updateApiKey(id, updates)`. */
    method UpdateApiKey(id: nat, updates: KeyInput, fault: Option<string>) returns (res: Result<ApiKeyRecord>)
      requires Valid()
      modifies this
      ensures Valid() && nextId == old(nextId)
      ensures Step(res, rows) == UpdateStep(old(rows), id, updates, fault)
    {
      var s := UpdateStep(rows, id, updates, fault);
      res, rows := s.result, s.rows;
    }

    /** `deleteApiKey(id)`. */
    method DeleteApiKey(id: nat, fault: Option<string>) returns (res: Result<()>)
      requires Valid()
      modifies this
      ensures Valid() && nextId == old(nextId)
      ensures Step(res, rows) == DeleteStep(old(rows), id, fault)
    {
      var s := DeleteStep(rows, id, fault);
      assert forall i :: 0 <= i < |s.rows| ==> s.rows[i] in rows;
      res, rows := s.result, s.rows;
      RemovePreservesValid(old(rows), id, nextId, fault);
    }

    /** `toggleApiKeyStatus(id, isActive)`. */
    method ToggleApiKeyStatus(id: nat, isActive: bool, fault: Option<string>) returns (res: Result<ApiKeyRecord>)
      requires Valid()
      modifies this
      ensures Valid() && nextId == old(nextId)
      ensures Step(res, rows) == ToggleStep(old(rows), id, isActive, fault)
    {
      var s := ToggleStep(rows, id, isActive, fault);
      res, rows := s.result, s.rows;
    }

    /** `updateLastUsed(id)`, with the clock reading `now`. */
    method UpdateLastUsed(id: nat, now: int, fault: Option<string>) returns (res: Result<ApiKeyRecord>)
      requires Valid()
      modifies this
      ensures Valid() && nextId == old(nextId)
      ensures Step(res, rows) == TouchStep(old(rows), id, now, fault)
    {
      var s := TouchStep(rows, id, now, fault);
      res, rows := s.result, s.rows;
    }

    /** `validateApiKey(candidate)`: the touch's result is ignored, so it cannot change the verdict. */
    method ValidateApiKey(candidate: string, now: int, lookupFault: Option<string>, touchFault: Option<string>)
      returns (v: Validation)
      requires Valid()
      modifies this
      ensures Valid() && nextId == old(nextId)
      ensures (v, rows) == ValidateStep(old(rows), candidate, now, lookupFault, touchFault)
    {
      v := Verdict(rows, candidate, lookupFault);
      if v.isValid {
        var _ := UpdateLastUsed(v.keyData.value.id, now, touchFault);
      }
    }
  }

  /** Deleting rows keeps the table's constraints. */
  lemma RemovePreservesValid(rows: seq<ApiKeyRecord>, id: nat, nextId: nat, fault: Option<string>)
    requires UniqueIds(rows) && UniqueApiKeys(rows)
    requires forall i :: 0 <= i < |rows| ==> rows[i].id < nextId
    ensures var after := DeleteStep(rows, id, fault).rows;
      && UniqueIds(after) && UniqueApiKeys(after)
      && forall i :: 0 <= i < |after| ==> after[i].id < nextId
  {
    if fault.None? {
      RemoveIdKeepsUnique(rows, id);
    }
  }

  /** A row sharing neither id nor key with any of the rows keeps them unique when put in front. */
  lemma PrependKeepsUnique(x: ApiKeyRecord, tail: seq<ApiKeyRecord>)
    requires UniqueIds(tail) && UniqueApiKeys(tail)
    requires forall y :: y in tail ==> y.id != x.id && y.apiKey != x.apiKey
    ensures UniqueIds([x] + tail) && UniqueApiKeys([x] + tail)
  {
    var r := [x] + tail;
    forall i, j | 0 <= i < j < |r|
      ensures r[i].id != r[j].id && r[i].apiKey != r[j].apiKey
    {
      if i == 0 {
        assert r[j] in tail;
      } else {
        assert r[i] == tail[i - 1] && r[j] == tail[j - 1];
      }
    }
  }

  /** The survivors of a delete keep unique ids and unique keys. */
  lemma {:induction false} RemoveIdKeepsUnique(rows: seq<ApiKeyRecord>, id: nat)
    requires UniqueIds(rows) && UniqueApiKeys(rows)
    ensures UniqueIds(RemoveId(rows, id)) && UniqueApiKeys(RemoveId(rows, id))
  {
    if rows != [] {
      var rest := rows[1..];
      assert UniqueIds(rest) && UniqueApiKeys(rest) by {
        forall i, j | 0 <= i < j < |rest|
          ensures rest[i].id != rest[j].id && rest[i].apiKey != rest[j].apiKey
        {
          assert rest[i] == rows[i + 1] && rest[j] == rows[j + 1];
        }
      }
      RemoveIdKeepsUnique(rest, id);
      var tail := RemoveId(rest, id);
      if rows[0].id != id {
        forall x | x in tail
          ensures x.id != rows[0].id && x.apiKey != rows[0].apiKey
        {
          var j :| 0 <= j < |rest| && rest[j] == x;
          assert rows[j + 1] == x;
        }
        PrependKeepsUnique(rows[0], tail);
        assert RemoveId(rows, id) == [rows[0]] + tail;
      } else {
        assert RemoveId(rows, id) == tail;
      }
    }
  }
}
