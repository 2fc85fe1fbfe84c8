/**
 * `getOrCreateDeviceId` of frontend/src/utils/identity.js over the browser's
 * localStorage. The generated id (a random UUID, or a clock-and-random
 * fallback) and the ISO creation time are parameters.
 */
module Identity {
  import opened Common
  import opened JsText

  const DEVICE_ID_KEY := "chat_device_id"
  const CREATED_AT_KEY := "chat_device_created_at"

  /** `localStorage.getItem(key)`: `null` when the key is absent. */
  function GetItem(items: map<string, string>, key: string): Option<string> {
    if key in items then Some(items[key]) else None
  }

  /** The id returned and the items left behind. A stored empty string is
      falsy, so it is replaced like a missing one. */
  function GetOrCreate(items: map<string, string>, freshId: string, nowIso: string): (r: (string, map<string, string>))
    ensures TruthyString(GetItem(items, DEVICE_ID_KEY)) ==> r == (items[DEVICE_ID_KEY], items)
    ensures !TruthyString(GetItem(items, DEVICE_ID_KEY)) ==>
      && r.0 == freshId
      && r.1 == items[DEVICE_ID_KEY := freshId][CREATED_AT_KEY := nowIso]
  {
    var stored := GetItem(items, DEVICE_ID_KEY);
    if TruthyString(stored) then (stored.value, items)
    else (freshId, items[DEVICE_ID_KEY := freshId][CREATED_AT_KEY := nowIso])
  }

  /** A second call, with any fresh id and time, answers the id of the first
      and writes nothing. */
  lemma GetOrCreateIdempotent(items: map<string, string>, freshId: string, nowIso: string, laterId: string, laterIso: string)
    requires freshId != ""
    ensures var (id, after) := GetOrCreate(items, freshId, nowIso);
      GetOrCreate(after, laterId, laterIso) == (id, after)
  {
    assert DEVICE_ID_KEY != CREATED_AT_KEY;
  }

  /** The creation time is written exactly when a new id is made, and no key
      other than the two is ever written. */
  lemma CreatedAtOnlyOnCreate(items: map<string, string>, freshId: string, nowIso: string)
    ensures var after := GetOrCreate(items, freshId, nowIso).1;
      && (after == items <==> TruthyString(GetItem(items, DEVICE_ID_KEY)) || (GetItem(items, DEVICE_ID_KEY) == Some(freshId) && GetItem(items, CREATED_AT_KEY) == Some(nowIso)))
      && forall k :: k != DEVICE_ID_KEY && k != CREATED_AT_KEY ==> (k in after <==> k in items) && (k in items ==> after[k] == items[k])
  {
    var after := GetOrCreate(items, freshId, nowIso).1;
    if !TruthyString(GetItem(items, DEVICE_ID_KEY)) && after == items {
      assert after[DEVICE_ID_KEY] == freshId && after[CREATED_AT_KEY] == nowIso;
    }
  }

  class LocalStorage {
    var items: map<string, string>

    constructor(initial: map<string, string>)
      ensures items == initial
    {
      items := initial;
    }
  }

  /** `getOrCreateDeviceId`. A generated id is never empty. */
  method GetOrCreateDeviceId(storage: LocalStorage, freshId: string, nowIso: string) returns (deviceId: string)
    requires freshId != ""
    modifies storage
    ensures (deviceId, storage.items) == GetOrCreate(old(storage.items), freshId, nowIso)
    ensures deviceId != "" && GetItem(storage.items, DEVICE_ID_KEY) == Some(deviceId)
  {
    var stored := GetItem(storage.items, DEVICE_ID_KEY);
    if TruthyString(stored) {
      return stored.value;
    }
    deviceId := freshId;
    storage.items := storage.items[DEVICE_ID_KEY := deviceId];
    storage.items := storage.items[CREATED_AT_KEY := nowIso];
  }
}
