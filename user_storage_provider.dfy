/**
 A read-only user store backed by a username -> password property file.

 One `Provider` serves one transaction of the host platform. It holds the
 store loaded at boot (`properties`, never written) and a cache of the user
 adapters it has handed out in this transaction (`loadedUsers`), so that
 repeated lookups of one username return the same object. Credential
 checks compare the stored plaintext password with the submitted one, and
 every attempt to write a password fails with `ReadOnlyException`.
 */
module UserStorage {
  import opened Credentials

  datatype Option<T> = None | Some(value: T)

  /** The user object handed to the host: it exposes only its username. */
  class UserAdapter {
    const username: string

    constructor (username: string)
      ensures this.username == username
    {
      this.username := username;
    }
  }

  // ---------------------------------------------------------------------------
  // The cache as a set of usernames, across the lookups of one transaction
  // ---------------------------------------------------------------------------

  /** The usernames cached after one lookup of `username` against `store`. */
  ghost function CachedAfter(cached: set<string>, store: map<string, string>, username: string): (r: set<string>)
    ensures cached <= r <= cached + {username}
    ensures username in store ==> username in r
    ensures username !in cached && username !in store ==> r == cached
  {
    if username in cached || username !in store then cached else cached + {username}
  }

  /** The usernames cached after looking up each of `names` in turn: each step is
      one `Provider.GetUserByUsername` call, whose contract ties the new cache
      keys to `CachedAfter` of the old ones. */
  ghost function CachedAfterAll(cached: set<string>, store: map<string, string>, names: seq<string>): set<string>
    decreases |names|
  {
    if names == [] then cached
    else CachedAfterAll(CachedAfter(cached, store, names[0]), store, names[1..])
  }

  /** After a run of lookups the cache holds what it held before plus exactly
      the requested names the store knows: no negative entries, nothing dropped. */
  lemma {:induction false} CachedAfterAllIsRequestedKnownNames(cached: set<string>, store: map<string, string>, names: seq<string>)
    ensures CachedAfterAll(cached, store, names) == cached + (set n | n in names && n in store)
    decreases |names|
  {
    if names != [] {
      var next := CachedAfter(cached, store, names[0]);
      CachedAfterAllIsRequestedKnownNames(next, store, names[1..]);
      var rest := set n | n in names[1..] && n in store;
      var all := set n | n in names && n in store;
      assert all == (if names[0] in store then {names[0]} else {}) + rest by {
        forall n | n in all ensures n in (if names[0] in store then {names[0]} else {}) + rest {
          if n != names[0] {
            var i :| 0 <= i < |names| && names[i] == n;
            assert names[1..][i - 1] == n;
          }
        }
      }
    }
  }

  /** A transaction starts with an empty cache; whatever it looks up, every
      cached username is a key of the store, and every known name it asked
      for is cached. */
  lemma {:induction false} TransactionCacheKeysAreStoreKeys(store: map<string, string>, names: seq<string>)
    ensures CachedAfterAll({}, store, names) <= store.Keys
    ensures forall n :: n in names && n in store ==> n in CachedAfterAll({}, store, names)
  {
    CachedAfterAllIsRequestedKnownNames({}, store, names);
  }

  /** The cache only grows, and repeating the same run of lookups adds nothing. */
  lemma {:induction false} RepeatedLookupsAddNothing(cached: set<string>, store: map<string, string>, names: seq<string>)
    ensures cached <= CachedAfterAll(cached, store, names)
    ensures CachedAfterAll(CachedAfterAll(cached, store, names), store, names) == CachedAfterAll(cached, store, names)
  {
    CachedAfterAllIsRequestedKnownNames(cached, store, names);
    CachedAfterAllIsRequestedKnownNames(CachedAfterAll(cached, store, names), store, names);
  }

  // ---------------------------------------------------------------------------
  // The provider
  // ---------------------------------------------------------------------------

  class Provider {
    /** The username -> password store loaded at boot; the provider never writes it. */
    const properties: map<string, string>
    /** The users resolved so far in this transaction, by username. */
    var loadedUsers: map<string, UserAdapter>

    /** Every cached username is a store key, and its adapter carries that username. */
    ghost predicate Valid()
      reads this
    {
      forall u :: u in loadedUsers ==> u in properties && loadedUsers[u].username == u
    }

    constructor (properties: map<string, string>)
      ensures this.properties == properties
      ensures loadedUsers == map[]
      ensures Valid()
    {
      this.properties := properties;
      loadedUsers := map[];
    }

    /** The stored password of `key`, if there is one. */
    function GetProperty(key: string): (r: Option<string>)
      ensures r.Some? <==> key in properties
      ensures r.Some? ==> r.value == properties[key]
    {
      if key in properties then Some(properties[key]) else None
    }

    /** Only the password credential type is supported. */
    function SupportsCredentialType(credentialType: string): (r: bool)
      ensures r <==> credentialType == "password"
    {
      credentialType == PASSWORD
    }

    /** A user is configured for a type exactly when the type is supported and
        the store holds a password for the user. */
    function IsConfiguredFor(user: UserAdapter, credentialType: string): (r: bool)
      ensures r <==> SupportsCredentialType(credentialType) && user.username in properties
    {
      var password := GetProperty(user.username);
      credentialType == PASSWORD && password.Some?
    }

    /** A credential is valid exactly when it is a password, the user has a
        stored password, and the two are the same string. */
    function IsValid(user: UserAdapter, input: CredentialInput): (r: bool)
      ensures r <==> SupportsCredentialType(input.credentialType)
                     && user.username in properties
                     && properties[user.username] == input.challengeResponse
      ensures r ==> IsConfiguredFor(user, input.credentialType)
      ensures user.username !in properties ==> !r
    {
      if !SupportsCredentialType(input.credentialType) then false
      else
        match GetProperty(user.username)
        case None => false
        case Some(password) => password == input.challengeResponse
    }

    /** Writing a password fails as read-only, for any user; any other
        credential type is not supported and yields `false`. */
    function UpdateCredential(user: UserAdapter, input: CredentialInput): (r: Result<bool>)
      ensures r.Err? <==> SupportsCredentialType(input.credentialType)
      ensures r.Ok? ==> !r.value
    {
      if input.credentialType == PASSWORD then Err(ReadOnlyException("user is read only for this update"))
      else Ok(false)
    }

    /** The store has no e-mail addresses, so no user is found by one. */
    function GetUserByEmail(email: string): (r: UserAdapter?)
      ensures r == null
    {
      null
    }

    /** No credential type of this store can be disabled. */
    function GetDisableableCredentialTypes(user: UserAdapter): (r: set<string>)
      ensures r == {}
    {
      {}
    }

    /** A new adapter for `username`. */
    method CreateAdapter(username: string) returns (adapter: UserAdapter)
      ensures fresh(adapter)
      ensures adapter.username == username
    {
      adapter := new UserAdapter(username);
    }

    /** Resolve `username`: a cached adapter is returned as it is; otherwise a
        store key gets a fresh adapter, cached under it; an unknown name gives
        null and leaves the cache alone. */
    method GetUserByUsername(username: string) returns (adapter: UserAdapter?)
      requires Valid()
      modifies this
      ensures Valid()
      ensures username in old(loadedUsers) ==>
                adapter == old(loadedUsers)[username] && loadedUsers == old(loadedUsers)
      ensures username !in old(loadedUsers) && username in properties ==>
                adapter != null && fresh(adapter) && adapter.username == username
                && loadedUsers == old(loadedUsers)[username := adapter]
      ensures username !in old(loadedUsers) && username !in properties ==>
                adapter == null && loadedUsers == old(loadedUsers)
      ensures adapter != null <==> username in properties
      ensures adapter != null ==> adapter.username == username && loadedUsers[username] == adapter
      ensures loadedUsers.Keys == CachedAfter(old(loadedUsers).Keys, properties, username)
    {
      adapter := if username in loadedUsers then loadedUsers[username] else null;
      if adapter == null {
        var password := GetProperty(username);
        if password.Some? {
          adapter := CreateAdapter(username);
          loadedUsers := loadedUsers[username := adapter];
        }
      }
    }

    /** Resolve a host user id: the username is the id's external part, as the
        host's `externalId` extractor defines it, and the lookup is the one by
        username. */
    method GetUserById(id: string, externalId: string -> string) returns (adapter: UserAdapter?)
      requires Valid()
      modifies this
      ensures Valid()
      ensures var username := externalId(id);
              && (username in old(loadedUsers) ==>
                    adapter == old(loadedUsers)[username] && loadedUsers == old(loadedUsers))
              && (username !in old(loadedUsers) && username in properties ==>
                    adapter != null && fresh(adapter) && adapter.username == username
                    && loadedUsers == old(loadedUsers)[username := adapter])
              && (username !in old(loadedUsers) && username !in properties ==>
                    adapter == null && loadedUsers == old(loadedUsers))
    {
      var username := externalId(id);
      adapter := GetUserByUsername(username);
    }
  }

  /** Two lookups of one username in one transaction return the same object,
      which exists exactly when the store knows the username. */
  method RepeatedLookupReturnsSameAdapter(p: Provider, username: string) returns (first: UserAdapter?, second: UserAdapter?)
    requires p.Valid()
    modifies p
    ensures p.Valid()
    ensures first == second
    ensures first != null <==> username in p.properties
    ensures p.loadedUsers.Keys == CachedAfter(old(p.loadedUsers).Keys, p.properties, username)
    ensures first != null ==> p.loadedUsers == old(p.loadedUsers)[username := first]
    ensures first == null ==> p.loadedUsers == old(p.loadedUsers)
  {
    first := p.GetUserByUsername(username);
    second := p.GetUserByUsername(username);
  }
}
