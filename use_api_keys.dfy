/**
 * The client-side key list (src/hooks/useApiKeys.js): the hook's state
 * `apiKeys`, `loading` and `error`, and the handlers that call the key store
 * and then patch the local list instead of reloading it. The `onSuccess`
 * callback is modelled by the notice a handler returns; the browser's
 * `confirm` dialog is the boolean `confirmed`.
 */
module ApiKeysHook {

  import opened Store
  import opened ApiKeys
  import opened KeyGenerator

  /** What a handler resolves to: `{ success, data?, error?, cancelled? }`. */
  datatype Outcome = Outcome(success: bool, data: Option<ApiKeyRecord>, error: Option<string>, cancelled: bool)

  /** The arguments a handler hands to `onSuccess`: a message and, for deletes, a toast type. */
  datatype Notice = Notice(message: string, kind: Option<string>)

  function Failed(message: string): Outcome
  {
    Outcome(false, None, Some(message), false)
  }

  const Cancelled: Outcome := Outcome(false, None, None, true)

  /**
   * What reading `is_active` of `undefined` throws when the key is not in the
   * local list, in the wording of the V8 engine (Chrome, Node.js); other
   * engines word the TypeError differently.
   */
  const MissingKeyError: string := "Cannot read properties of undefined (reading 'is_active')"

  /** `API key "<name>"`. */
  function Named(name: string): string
  {
    "API key \"" + name + "\""
  }

  // ------------------------------------------------------------ list state

  /** The local list shows exactly the rows of the table, in whatever order. */
  ghost predicate Mirrors(local: seq<ApiKeyRecord>, rows: seq<ApiKeyRecord>)
  {
    forall x :: x in local <==> x in rows
  }

  /** `apiKeys.find((key) => key.id === id)`. */
  function FindById(keys: seq<ApiKeyRecord>, id: nat): (r: Option<ApiKeyRecord>)
    ensures r.None? <==> !HasId(keys, id)
    ensures r.Some? ==> r.value.id == id && r.value in keys
    ensures r.Some? ==> exists i :: 0 <= i < |keys| && keys[i] == r.value && forall j :: 0 <= j < i ==> keys[j].id != id
  {
    if keys == [] then None
    else if keys[0].id == id then Some(keys[0])
    else
      var r := FindById(keys[1..], id);
      assert HasId(keys[1..], id) <==> HasId(keys, id) by {
        if HasId(keys, id) {
          var k :| 0 <= k < |keys| && keys[k].id == id;
          assert keys[1..][k - 1].id == id;
        }
        if HasId(keys[1..], id) {
          var k :| 0 <= k < |keys[1..]| && keys[1..][k].id == id;
          assert keys[k + 1].id == id;
        }
      }
      if r.Some? then
        var k :| 0 <= k < |keys[1..]| && keys[1..][k] == r.value && forall j :: 0 <= j < k ==> keys[1..][j].id != id;
        assert keys[k + 1] == r.value;
        assert forall j :: 0 <= j < k + 1 ==> keys[j].id != id by {
          forall j | 0 <= j < k + 1 ensures keys[j].id != id {
            if j > 0 { assert keys[j] == keys[1..][j - 1]; }
          }
        }
        r
      else r
  }

  /** `apiKeys.map((key) => (key.id === keyId ? data : key))`. */
  function Replaced(keys: seq<ApiKeyRecord>, id: nat, data: ApiKeyRecord): (r: seq<ApiKeyRecord>)
    ensures |r| == |keys|
    ensures forall i :: 0 <= i < |keys| ==> r[i] == if keys[i].id == id then data else keys[i]
  {
    MapById(keys, id, _ => data)
  }

  /** `apiKeys.map((key) => key.id === id ? { ...key, is_active: status } : key)`. */
  function WithStatus(keys: seq<ApiKeyRecord>, id: nat, status: bool): (r: seq<ApiKeyRecord>)
    ensures |r| == |keys|
    ensures forall i :: 0 <= i < |keys| ==> r[i] == if keys[i].id == id then keys[i].(isActive := status) else keys[i]
  {
    MapById(keys, id, (x: ApiKeyRecord) => x.(isActive := status))
  }

  /** Applying the same per-row change to two lists with the same rows keeps them mirrored. */
  lemma MapByIdMirrors(local: seq<ApiKeyRecord>, rows: seq<ApiKeyRecord>, id: nat, f: ApiKeyRecord -> ApiKeyRecord)
    requires Mirrors(local, rows)
    ensures Mirrors(MapById(local, id, f), MapById(rows, id, f))
  {
    var ml, mr := MapById(local, id, f), MapById(rows, id, f);
    forall x | x in ml ensures x in mr {
      var i :| 0 <= i < |ml| && ml[i] == x;
      assert local[i] in rows;
      var j :| 0 <= j < |rows| && rows[j] == local[i];
      assert mr[j] == x;
    }
    forall x | x in mr ensures x in ml {
      var j :| 0 <= j < |mr| && mr[j] == x;
      assert rows[j] in local;
      var i :| 0 <= i < |local| && local[i] == rows[j];
      assert ml[i] == x;
    }
  }

  /** A successful create leaves the prepended list mirroring the table. */
  lemma CreateKeepsMirror(local: seq<ApiKeyRecord>, rows: seq<ApiKeyRecord>, nextId: nat, keyData: KeyInput,
                          key: string, now: int)
    requires Mirrors(local, rows)
    ensures var s := CreateStep(rows, nextId, keyData, None, key, now, None);
            s.result.Ok? ==> Mirrors([s.result.value] + local, s.rows)
  {
  }

  /**
   * A successful update leaves the patched list mirroring the table: the record
   * the store returns is what the store wrote into every row with that id.
   */
  lemma {:induction false} UpdateKeepsMirror(local: seq<ApiKeyRecord>, rows: seq<ApiKeyRecord>, id: nat, u: KeyInput)
    requires UniqueIds(rows) && Mirrors(local, rows)
    ensures var s := UpdateStep(rows, id, u, None);
            s.result.Ok? ==> Mirrors(Replaced(local, id, s.result.value), s.rows)
  {
    var s := UpdateStep(rows, id, u, None);
    if s.result.Ok? {
      var data := s.result.value;
      var r := RowWithId(rows, id);
      assert data == Edited(r, u);
      var edit := (x: ApiKeyRecord) => Edited(x, u);
      assert s.rows == MapById(rows, id, edit);
      MapByIdMirrors(local, rows, id, edit);
      var patched := Replaced(local, id, data);
      assert patched == MapById(local, id, edit) by {
        forall i | 0 <= i < |local| && local[i].id == id ensures patched[i] == edit(local[i]) {
          assert local[i] in rows;
          var j :| 0 <= j < |rows| && rows[j] == local[i];
          var k :| 0 <= k < |rows| && rows[k] == r;
          assert j == k;
        }
      }
    }
  }

  /** A successful delete leaves the filtered list mirroring the table. */
  lemma DeleteKeepsMirror(local: seq<ApiKeyRecord>, rows: seq<ApiKeyRecord>, id: nat)
    requires Mirrors(local, rows)
    ensures Mirrors(RemoveId(local, id), DeleteStep(rows, id, None).rows)
  {
  }

  /** A successful toggle leaves the patched list mirroring the table. */
  lemma ToggleKeepsMirror(local: seq<ApiKeyRecord>, rows: seq<ApiKeyRecord>, id: nat, status: bool)
    requires UniqueIds(rows) && Mirrors(local, rows)
    ensures var s := ToggleStep(rows, id, status, None);
            s.result.Ok? ==> Mirrors(WithStatus(local, id, status), s.rows)
  {
    var s := ToggleStep(rows, id, status, None);
    if s.result.Ok? {
      var flip := (x: ApiKeyRecord) => x.(isActive := status);
      assert s.rows == MapById(rows, id, flip);
      MapByIdMirrors(local, rows, id, flip);
      assert WithStatus(local, id, status) == MapById(local, id, flip);
    }
  }

  /** With unique ids, `find` returns the one entry carrying the id. */
  lemma {:induction false} FindUnique(keys: seq<ApiKeyRecord>, id: nat, k: nat)
    requires UniqueIds(keys) && k < |keys| && keys[k].id == id
    ensures FindById(keys, id) == Some(keys[k])
  {
    var r := FindById(keys, id);
    var i :| 0 <= i < |keys| && keys[i] == r.value && forall j :: 0 <= j < i ==> keys[j].id != id;
    assert i == k;
  }

  /** Setting a status away and back restores every entry that had it. */
  lemma {:induction false} StatusRestored(keys: seq<ApiKeyRecord>, id: nat, b: bool)
    requires forall i :: 0 <= i < |keys| && keys[i].id == id ==> keys[i].isActive == b
    ensures WithStatus(WithStatus(keys, id, !b), id, b) == keys
  {
    var once := WithStatus(keys, id, !b);
    var twice := WithStatus(once, id, b);
    forall i | 0 <= i < |keys| ensures twice[i] == keys[i] {
      assert once[i].id == keys[i].id;
    }
  }

  /** Toggling the same key twice restores the list when ids are unique. */
  lemma {:induction false} ToggleTwiceRestores(keys: seq<ApiKeyRecord>, id: nat)
    requires UniqueIds(keys) && HasId(keys, id)
    ensures var once := WithStatus(keys, id, !FindById(keys, id).value.isActive);
            WithStatus(once, id, !FindById(once, id).value.isActive) == keys
  {
    var k :| 0 <= k < |keys| && keys[k].id == id;
    FindUnique(keys, id, k);
    var b := keys[k].isActive;
    var once := WithStatus(keys, id, !b);
    assert UniqueIds(once) by {
      assert forall i :: 0 <= i < |keys| ==> once[i].id == keys[i].id;
    }
    FindUnique(once, id, k);
    assert FindById(once, id).value.isActive == !b;
    assert forall i :: 0 <= i < |keys| && keys[i].id == id ==> keys[i].isActive == b by {
      forall i | 0 <= i < |keys| && keys[i].id == id ensures keys[i].isActive == b {
        assert i == k;
      }
    }
    StatusRestored(keys, id, b);
  }

  // ------------------------------------------------------------------ hook

  /** The state `useApiKeys` keeps: the list, the loading flag and the last error. */
  class KeysHook {
    var apiKeys: seq<ApiKeyRecord>
    var loading: bool
    var error: Option<string>

    /** The initial state before the mount effect runs `loadApiKeys`. */
    constructor ()
      ensures apiKeys == [] && loading && error.None?
    {
      apiKeys, loading, error := [], true, None;
    }

    /** `loadApiKeys()`: the whole table, newest first; `loading` is false afterwards in every case. */
    method LoadApiKeys(table: KeyTable, fault: Option<StoreMessage>)
      modifies this
      ensures !loading
      ensures fault.Some? ==> apiKeys == old(apiKeys) && error == fault && Truthy(error)
      ensures fault.None? ==>
                && error.None? && SortedByCreatedDesc(apiKeys)
                && multiset(apiKeys) == multiset(table.rows)
                && Mirrors(apiKeys, table.rows)
    {
      loading, error := true, None;
      var res := table.GetApiKeys(None, fault);
      if res.Err? {
        error := Some(res.error);
      } else {
        apiKeys := res.value;
        assert forall x :: x in apiKeys <==> x in multiset(table.rows);
      }
      loading := false;
    }

    /** `handleCreate(formData, onSuccess)`: the new key goes to the front of the list. */
    method HandleCreate(table: KeyTable, formData: KeyInput, draw: seq<nat>, now: int, fault: Option<StoreMessage>)
      returns (out: Outcome, notice: Option<Notice>)
      requires table.Valid() && IsRandomDraw(draw)
      modifies this, table
      ensures table.Valid() && loading == old(loading)
      ensures var s := CreateStep(old(table.rows), old(table.nextId), formData, None, KeyFor(draw), now, fault);
              && table.rows == s.rows
              && (out.success <==> s.result.Ok?)
              && (s.result.Ok? ==>
                    && out == Outcome(true, Some(s.result.value), None, false)
                    && apiKeys == [s.result.value] + old(apiKeys) && error.None?
                    && notice == Some(Notice(Named(s.result.value.name) + " created successfully", None)))
              && (s.result.Err? ==>
                    && out == Failed(s.result.error)
                    && apiKeys == old(apiKeys) && error == Some(s.result.error) && notice.None?)
      ensures Mirrors(old(apiKeys), old(table.rows)) && out.success ==> Mirrors(apiKeys, table.rows)
      ensures !out.success && !out.cancelled ==> Truthy(out.error) && error == out.error
    {
      error := None;
      if Mirrors(apiKeys, table.rows) {
        CreateKeepsMirror(apiKeys, table.rows, table.nextId, formData, KeyFor(draw), now);
      }
      var res := table.CreateApiKey(formData, None, draw, now, fault);
      if res.Err? {
        error := Some(res.error);
        return Failed(res.error), None;
      }
      apiKeys := [res.value] + apiKeys;
      out := Outcome(true, Some(res.value), None, false);
      notice := Some(Notice(Named(res.value.name) + " created successfully", None));
    }

    /** `handleUpdate(keyId, formData, onSuccess)`: the returned record replaces the local entry. */
    method HandleUpdate(table: KeyTable, keyId: nat, formData: KeyInput, fault: Option<StoreMessage>)
      returns (out: Outcome, notice: Option<Notice>)
      requires table.Valid()
      modifies this, table
      ensures table.Valid() && table.nextId == old(table.nextId) && loading == old(loading)
      ensures var s := UpdateStep(old(table.rows), keyId, formData, fault);
              && table.rows == s.rows
              && (out.success <==> s.result.Ok?)
              && (s.result.Ok? ==>
                    && out == Outcome(true, Some(s.result.value), None, false)
                    && apiKeys == Replaced(old(apiKeys), keyId, s.result.value) && error.None?
                    && notice == Some(Notice(Named(s.result.value.name) + " updated successfully", None)))
              && (s.result.Err? ==>
                    && out == Failed(s.result.error)
                    && apiKeys == old(apiKeys) && error == Some(s.result.error) && notice.None?)
      ensures Mirrors(old(apiKeys), old(table.rows)) && out.success ==> Mirrors(apiKeys, table.rows)
      ensures !out.success && !out.cancelled ==> Truthy(out.error) && error == out.error
    {
      error := None;
      if Mirrors(apiKeys, table.rows) {
        UpdateKeepsMirror(apiKeys, table.rows, keyId, formData);
      }
      var res := table.UpdateApiKey(keyId, formData, fault);
      if res.Err? {
        error := Some(res.error);
        return Failed(res.error), None;
      }
      apiKeys := Replaced(apiKeys, keyId, res.value);
      out := Outcome(true, Some(res.value), None, false);
      notice := Some(Notice(Named(res.value.name) + " updated successfully", None));
    }

    /**
     * `handleDelete(id, onSuccess)`: nothing happens unless the user confirms;
     * the notice names the key as found before the removal, "undefined" when absent.
     */
    method HandleDelete(table: KeyTable, id: nat, confirmed: bool, fault: Option<StoreMessage>)
      returns (out: Outcome, notice: Option<Notice>)
      requires table.Valid()
      modifies this, table
      ensures table.Valid() && table.nextId == old(table.nextId) && loading == old(loading)
      ensures !confirmed ==>
                && out == Cancelled && notice.None?
                && apiKeys == old(apiKeys) && error == old(error) && table.rows == old(table.rows)
      ensures confirmed ==> table.rows == DeleteStep(old(table.rows), id, fault).rows
      ensures confirmed && fault.Some? ==>
                && out == Failed(fault.value) && notice.None?
                && apiKeys == old(apiKeys) && error == fault
      ensures confirmed && fault.None? ==>
                && out == Outcome(true, None, None, false) && error.None?
                && apiKeys == RemoveId(old(apiKeys), id)
                && var found := FindById(old(apiKeys), id);
                   notice == Some(Notice(Named(if found.Some? then found.value.name else "undefined")
                                         + " deleted successfully", Some("error")))
      ensures Mirrors(old(apiKeys), old(table.rows)) && out.success ==> Mirrors(apiKeys, table.rows)
      ensures !out.success && !out.cancelled ==> Truthy(out.error) && error == out.error
    {
      if !confirmed {
        return Cancelled, None;
      }
      error := None;
      if Mirrors(apiKeys, table.rows) {
        DeleteKeepsMirror(apiKeys, table.rows, id);
      }
      var res := table.DeleteApiKey(id, fault);
      if res.Err? {
        error := Some(res.error);
        return Failed(res.error), None;
      }
      var deleted := FindById(apiKeys, id);
      apiKeys := RemoveId(apiKeys, id);
      out := Outcome(true, None, None, false);
      notice := Some(Notice(Named(if deleted.Some? then deleted.value.name else "undefined")
                            + " deleted successfully", Some("error")));
    }

    /**
     * `handleToggleStatus(id, onSuccess)`: the new status is the negation of the
     * local entry's; a key missing from the list fails before the store is called.
     */
    method HandleToggleStatus(table: KeyTable, id: nat, fault: Option<StoreMessage>)
      returns (out: Outcome, notice: Option<Notice>)
      requires table.Valid()
      modifies this, table
      ensures table.Valid() && table.nextId == old(table.nextId) && loading == old(loading)
      ensures FindById(old(apiKeys), id).None? ==>
                && out == Failed(MissingKeyError) && notice.None?
                && apiKeys == old(apiKeys) && error == Some(MissingKeyError) && table.rows == old(table.rows)
      ensures FindById(old(apiKeys), id).Some? ==>
                var current := FindById(old(apiKeys), id).value;
                var status := !current.isActive;
                var s := ToggleStep(old(table.rows), id, status, fault);
                && table.rows == s.rows
                && (out.success <==> s.result.Ok?)
                && (s.result.Ok? ==>
                      && out == Outcome(true, None, None, false) && error.None?
                      && apiKeys == WithStatus(old(apiKeys), id, status)
                      && notice == Some(Notice(Named(current.name)
                                               + (if status then " activated" else " deactivated")
                                               + " successfully", None)))
                && (s.result.Err? ==>
                      && out == Failed(s.result.error) && notice.None?
                      && apiKeys == old(apiKeys) && error == Some(s.result.error))
      ensures Mirrors(old(apiKeys), old(table.rows)) && out.success ==> Mirrors(apiKeys, table.rows)
      ensures !out.success && !out.cancelled ==> Truthy(out.error) && error == out.error
    {
      error := None;
      var current := FindById(apiKeys, id);
      if current.None? {
        error := Some(MissingKeyError);
        return Failed(MissingKeyError), None;
      }
      var status := !current.value.isActive;
      if Mirrors(apiKeys, table.rows) {
        ToggleKeepsMirror(apiKeys, table.rows, id, status);
      }
      var res := table.ToggleApiKeyStatus(id, status, fault);
      if res.Err? {
        error := Some(res.error);
        return Failed(res.error), None;
      }
      apiKeys := WithStatus(apiKeys, id, status);
      out := Outcome(true, None, None, false);
      notice := Some(Notice(Named(current.value.name)
                            + (if status then " activated" else " deactivated")
                            + " successfully", None));
    }
  }
}
