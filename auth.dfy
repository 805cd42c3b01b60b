/** The browser-side credential store of frontend/lib/auth.js: the access
    and refresh tokens live under two fixed keys of the page's key-value
    storage (`localStorage`), which also holds unrelated entries. Outside a
    browser (server-side rendering) there is no storage: reads give two
    nulls and writes do nothing. */
module Auth {
  import opened Wrappers

  const AccessKey: string := "access_token"
  const RefreshKey: string := "refresh_token"

  /** The pair `{ access, refresh }` that `getTokens` returns; None is null. */
  datatype Tokens = Tokens(access: Option<string>, refresh: Option<string>)

  /** JavaScript truthiness of a possibly missing string. */
  predicate Truthy(v: Option<string>)
  {
    v.Some? && v.value != ""
  }

  /** `localStorage.getItem(key)`. */
  function Lookup(storage: map<string, string>, key: string): Option<string>
  {
    if key in storage then Some(storage[key]) else None
  }

  /** What `getTokens` returns for the given storage. */
  function ReadTokens(hasWindow: bool, storage: map<string, string>): (t: Tokens)
    ensures !hasWindow ==> t.access.None? && t.refresh.None?
    ensures hasWindow ==> (t.access.Some? <==> AccessKey in storage) && (t.refresh.Some? <==> RefreshKey in storage)
    ensures hasWindow && t.access.Some? ==> t.access.value == storage[AccessKey]
    ensures hasWindow && t.refresh.Some? ==> t.refresh.value == storage[RefreshKey]
  {
    if !hasWindow then Tokens(None, None)
    else Tokens(Lookup(storage, AccessKey), Lookup(storage, RefreshKey))
  }

  /** The storage after `setTokens({ access, refresh })`: each key is written
      only when its value is truthy, so a missing or empty value keeps what
      was stored, and no other key is touched. */
  function WriteTokens(hasWindow: bool, storage: map<string, string>,
                       access: Option<string>, refresh: Option<string>): (r: map<string, string>)
    ensures !hasWindow ==> r == storage
    ensures forall k :: k != AccessKey && k != RefreshKey ==> Lookup(r, k) == Lookup(storage, k)
    ensures Lookup(r, AccessKey) == if hasWindow && Truthy(access) then access else Lookup(storage, AccessKey)
    ensures Lookup(r, RefreshKey) == if hasWindow && Truthy(refresh) then refresh else Lookup(storage, RefreshKey)
  {
    if !hasWindow then storage
    else
      var afterAccess := if Truthy(access) then storage[AccessKey := access.value] else storage;
      if Truthy(refresh) then afterAccess[RefreshKey := refresh.value] else afterAccess
  }

  /** The storage after `clearTokens()`: both token keys gone, every other
      entry kept. */
  function ClearedTokens(hasWindow: bool, storage: map<string, string>): (r: map<string, string>)
    ensures !hasWindow ==> r == storage
    ensures hasWindow ==> AccessKey !in r && RefreshKey !in r
    ensures forall k :: k != AccessKey && k != RefreshKey ==> Lookup(r, k) == Lookup(storage, k)
  {
    if !hasWindow then storage else storage - {AccessKey, RefreshKey}
  }

  /** Writing both tokens and reading them back gives the same pair. */
  lemma SetThenGet(storage: map<string, string>, a: string, r: string)
    requires a != "" && r != ""
    ensures ReadTokens(true, WriteTokens(true, storage, Some(a), Some(r))) == Tokens(Some(a), Some(r))
  {
  }

  /** A renewal that stores only a new access token keeps the refresh token. */
  lemma SetAccessKeepsRefresh(hasWindow: bool, storage: map<string, string>, a: Option<string>)
    ensures ReadTokens(hasWindow, WriteTokens(hasWindow, storage, a, None)).refresh
            == ReadTokens(hasWindow, storage).refresh
  {
  }

  /** Clearing leaves no token to read, and clearing again changes nothing. */
  lemma ClearIsIdempotent(hasWindow: bool, storage: map<string, string>)
    ensures ReadTokens(hasWindow, ClearedTokens(hasWindow, storage)) == Tokens(None, None)
    ensures ClearedTokens(hasWindow, ClearedTokens(hasWindow, storage)) == ClearedTokens(hasWindow, storage)
  {
  }

  /** The store itself: `localStorage` as a mutable map. */
  class TokenStore {
    const hasWindow: bool
    var storage: map<string, string>

    constructor (hasWindow: bool, storage: map<string, string>)
      ensures this.hasWindow == hasWindow && this.storage == storage
    {
      this.hasWindow := hasWindow;
      this.storage := storage;
    }

    /** `getTokens()`. */
    method GetTokens() returns (t: Tokens)
      ensures t == ReadTokens(hasWindow, storage)
    {
      if !hasWindow {
        return Tokens(None, None);
      }
      var access := if AccessKey in storage then Some(storage[AccessKey]) else None;
      var refresh := if RefreshKey in storage then Some(storage[RefreshKey]) else None;
      t := Tokens(access, refresh);
    }

    /** `setTokens({ access, refresh })`. */
    method SetTokens(access: Option<string>, refresh: Option<string>)
      modifies this
      ensures storage == WriteTokens(hasWindow, old(storage), access, refresh)
    {
      if !hasWindow {
        return;
      }
      if access.Some? && access.value != "" {
        storage := storage[AccessKey := access.value];
      }
      if refresh.Some? && refresh.value != "" {
        storage := storage[RefreshKey := refresh.value];
      }
    }

    /** `clearTokens()`. */
    method ClearTokens()
      modifies this
      ensures storage == ClearedTokens(hasWindow, old(storage))
    {
      if !hasWindow {
        return;
      }
      storage := storage - {AccessKey};
      storage := storage - {RefreshKey};
    }
  }
}
