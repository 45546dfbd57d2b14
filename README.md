# Read-only property-file user store

A Dafny model of `PropertyFileUserStorageProvider`. This is a user-storage
plugin for the Keycloak identity server. Its users live in a flat
`username=password` property file that is loaded once at boot and never
written back.

- `Credentials` (`credentials.dfy`) holds the host vocabulary the provider
  uses:
  - the credential type constant `PASSWORD` (`"password"`);
  - `CredentialInput`, a credential type plus a challenge response;
  - `ReadOnlyException`;
  - a `Result` type for operations that may throw it.
- `UserStorage` (`user_storage_provider.dfy`) holds the provider:
  - `UserAdapter` is the user object handed to the host. Its only state is a
    `const username`, which is what the anonymous `AbstractUserAdapter`
    subclass's `getUsername` override returns.
  - `Provider` is one per-transaction provider instance. The loaded store is
    the `const properties: map<string, string>`, so it cannot be written.
    The per-transaction cache is `var loadedUsers: map<string, UserAdapter>`,
    which `GetUserByUsername` updates in place.
  - `Valid()` is the cache invariant. Every cached username is a store key,
    and the adapter cached under a username carries that username.
  - The decision rules are functions that read only the constant store, so
    they cannot change any state: `SupportsCredentialType`,
    `IsConfiguredFor`, `IsValid`, `UpdateCredential`, `GetUserByEmail` and
    `GetDisableableCredentialTypes`.
  - `CachedAfter` and `CachedAfterAll` describe the cache's key set across
    the lookups of one transaction. The lemmas about them say that the
    cache only grows, holds exactly the known names looked up, and never
    holds an unknown name.

`StorageId.getExternalId`, the host's id parser, is not part of this model.
`GetUserById` takes it as a function parameter `externalId` and composes it
with `GetUserByUsername`.

Two behaviours of the code are worth stating directly:
- `IsValid` checks the credential type before it looks up the password.
  The Javadoc of `isValid` also says the input is checked to be a
  `UserCredentialModel`, but the code does no such check, and neither does
  the model.
- `GetUserById` hands whatever the extractor returns to
  `GetUserByUsername`. There is no separate case for malformed ids.

## Model

| member | source | states |
|---|---|---|
| UserStorage.UserAdapter.constructor | src/main/java/com/douineau/provider/PropertyFileUserStorageProvider.java:153-157 | the adapter's username is the one it was created for |
| UserStorage.Provider.constructor | src/main/java/com/douineau/provider/PropertyFileUserStorageProvider.java:26-32 | a new provider holds the given store and an empty cache, and satisfies the cache invariant |
| UserStorage.Provider.GetProperty | src/main/java/com/douineau/provider/PropertyFileUserStorageProvider.java:135-136 | a password is found exactly for the store's keys, and it is the stored one |
| UserStorage.Provider.SupportsCredentialType | src/main/java/com/douineau/provider/PropertyFileUserStorageProvider.java:73-75 | true exactly for the type `"password"` |
| UserStorage.Provider.IsConfiguredFor | src/main/java/com/douineau/provider/PropertyFileUserStorageProvider.java:87-90 | true exactly when the type is supported and the store has a password for the user's username |
| UserStorage.Provider.IsValid | src/main/java/com/douineau/provider/PropertyFileUserStorageProvider.java:102-108 | true exactly when the type is `"password"`, the user has a stored password, and it equals the challenge response exactly. A valid credential implies the user is configured for its type. An unknown user is never valid, whatever the secret. |
| UserStorage.Provider.UpdateCredential | src/main/java/com/douineau/provider/PropertyFileUserStorageProvider.java:44-48 | fails with the read-only error exactly when the type is the supported one, for any user. Otherwise it returns false. |
| UserStorage.Provider.GetUserByEmail | src/main/java/com/douineau/provider/PropertyFileUserStorageProvider.java:161-164 | no user is ever found by e-mail |
| UserStorage.Provider.GetDisableableCredentialTypes | src/main/java/com/douineau/provider/PropertyFileUserStorageProvider.java:55-58 | the set of disableable types is empty |
| UserStorage.Provider.CreateAdapter | src/main/java/com/douineau/provider/PropertyFileUserStorageProvider.java:152-159 | returns a new object whose username is the given one |
| UserStorage.Provider.GetUserByUsername | src/main/java/com/douineau/provider/PropertyFileUserStorageProvider.java:132-143 | A cache hit returns the cached object and leaves the cache unchanged. A store key that is not cached gets a fresh adapter with that username, and the cache gains exactly that entry. An unknown name returns null and the cache is unchanged. The result is non-null exactly for store keys. The cache invariant is kept. |
| UserStorage.Provider.GetUserById | src/main/java/com/douineau/provider/PropertyFileUserStorageProvider.java:115-120 | the same three outcomes as the lookup by username, applied to the id's external part |
| UserStorage.RepeatedLookupReturnsSameAdapter | src/main/java/com/douineau/provider/PropertyFileUserStorageProvider.java:133-141 | two lookups of one username in a transaction return the same reference, which is non-null exactly when the store knows the name. Afterwards the cache holds that adapter if the name is known and is otherwise unchanged, so the second lookup adds nothing. |
| UserStorage.CachedAfter | src/main/java/com/douineau/provider/PropertyFileUserStorageProvider.java:133-141 | one lookup only grows the cache, by at most the looked-up name. A known name is cached afterwards. An unknown, uncached name leaves the cache as it was, so no negative entry is added. |
| UserStorage.CachedAfterAllIsRequestedKnownNames | src/main/java/com/douineau/provider/PropertyFileUserStorageProvider.java:133-141 | after any run of lookups, the cache holds its earlier names plus exactly the looked-up names the store knows |
| UserStorage.TransactionCacheKeysAreStoreKeys | src/main/java/com/douineau/provider/PropertyFileUserStorageProvider.java:25-26 | from a transaction's empty cache, every cached name is a store key, and every known name looked up is cached |
| UserStorage.RepeatedLookupsAddNothing | src/main/java/com/douineau/provider/PropertyFileUserStorageProvider.java:133-141 | the cache only grows, and repeating a run of lookups leaves it as it was |

## Left out

- Both factories' `init` are not modelled. They read `users.properties`
  from the classpath with `java.util.Properties.load`, which is file I/O and
  a library parser. The store is an arbitrary immutable map given to the
  `Provider` constructor.
- The factories' `create`, `getId`, `getHelpText`, `getConfigProperties`,
  `postInit` and `close` are not modelled. They are plugin-registration glue
  with no logic.
- `close`, `disableCredentialType` and the three `preRemove` overloads do
  nothing, so they are not modelled. Every modelled decision rule is a
  function, so none of them can change state either.
- The session, realm and component model are opaque host handles that are
  only passed through. The model drops them.
- `StorageId` parsing is host library code. `GetUserById` takes the
  external-id extractor as an uninterpreted function parameter. As a result,
  the model cannot state what a concrete id such as `f:myprovider:bob`
  resolves to.
- The rest of `AbstractUserAdapter` is not modelled. Only the username
  override is kept.
- `isValid` and `isConfiguredFor` accept any host `UserModel`. The model
  passes a `UserAdapter`, since only the user's username is read.
- `java.util.Properties` details are not modelled: default tables, and
  non-string values that `getProperty` reports as absent. Null arguments,
  which would throw `NullPointerException` in the source, are not modelled
  either. Strings in the model are never null.
- Logging and concurrency are not modelled. Each transaction has its own
  provider instance, and the store is only read.
