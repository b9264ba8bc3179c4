/**
 * The auth store (src/features/auth/authSlice.ts): the user id, initialised from
 * and written to local storage, and the public profile loaded by
 * `fetchPublicProfile`, whose payload is `response.data || response`
 * (`Js.DataOrSelf`).
 */
module AuthSlice {
  import opened Wrappers
  import opened Js
  import opened AsyncStatus
  import Storage

  /** `localStorage.getItem('user-id') || null`: an empty stored id counts as none. */
  function InitialUserId(items: map<string, string>): (r: Option<string>)
    ensures r.Some? <==> "user-id" in items && items["user-id"] != ""
    ensures r.Some? ==> r.value == items["user-id"]
  {
    if "user-id" in items && items["user-id"] != "" then Some(items["user-id"]) else None
  }

  /** The storage after `setUserId(payload)`: written only for a non-empty id. */
  function StoredAfterSetUserId(items: map<string, string>, payload: Option<string>): (r: map<string, string>)
    ensures payload.Some? && payload.value != "" ==> r == items["user-id" := payload.value]
    ensures payload.None? || payload.value == "" ==> r == items
  {
    if payload.Some? && payload.value != "" then items["user-id" := payload.value] else items
  }

  /**
   * A store created after `setUserId` starts with the id that was set when it was
   * non-empty; after clearing it (null or '') it starts with the id stored before.
   */
  lemma SetUserIdSurvivesReload(items: map<string, string>, payload: Option<string>)
    ensures payload.Some? && payload.value != "" ==> InitialUserId(StoredAfterSetUserId(items, payload)) == payload
    ensures payload.None? || payload.value == "" ==> InitialUserId(StoredAfterSetUserId(items, payload)) == InitialUserId(items)
  {
  }

  class AuthStore {
    var userId: Option<string>
    var profile: JsValue
    var status: Status
    var error: Option<string>

    constructor (storage: Storage.LocalStorage)
      ensures userId == InitialUserId(storage.items)
      ensures profile == Null && status == Idle && error == None
    {
      userId := InitialUserId(storage.items);
      profile, status, error := Null, Idle, None;
    }

    /** `setUserId`: always sets the id; writes storage only for a truthy one. */
    method SetUserId(payload: Option<string>, storage: Storage.LocalStorage)
      modifies this, storage
      ensures userId == payload
      ensures profile == old(profile) && status == old(status) && error == old(error)
      ensures storage.items == StoredAfterSetUserId(old(storage.items), payload)
    {
      userId := payload;
      if payload.Some? && payload.value != "" {
        storage.SetItem("user-id", payload.value);
      }
    }

    method OnPending()
      modifies this
      ensures status == Loading
      ensures userId == old(userId) && profile == old(profile) && error == old(error)
    {
      status := Loading;
    }

    method OnFulfilled(payload: JsValue)
      modifies this
      ensures status == Succeeded && profile == payload
      ensures userId == old(userId) && error == old(error)
    {
      status := Succeeded;
      profile := payload;
    }

    method OnRejected(message: Option<string>)
      modifies this
      ensures status == Failed && error == Some(ErrorText(message, "Failed to fetch public profile"))
      ensures userId == old(userId) && profile == old(profile)
    {
      status := Failed;
      error := Some(ErrorText(message, "Failed to fetch public profile"));
    }
  }
}
