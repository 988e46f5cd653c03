# Player cache model

A Dafny model of the player cache of the HT Aspect server plugin: a two-way
store of player UUIDs and usernames (Guava `HashBiMap<UUID, String>`) that
answers profile lookups locally, falls back to the remote profile service on
a miss when the server holds a session token, writes remote answers into the
store, saves itself only when a name actually changes, and loads and saves
`playercache.json` under a format version. Beside it sit the two value types
the cache and the plugin use: `PlayerGameProfile` (an optional UUID and an
optional username, at least one present) and `EnvironmentType` (the
production / development / unknown classifier).

Layout, one module per file:

- `wrappers.dfy` (`Wrappers`): `Option` for Java nulls and `Optional`, `Result` for exceptions.
- `java_lang.dfy` (`JavaLang`): `int` narrowing, `String.hashCode`, `Integer.parseInt`, decimal text.
- `uuids.dfy` (`Uuids`): `UUID` as 32 hex digits with its canonical `toString` / `fromString` and `hashCode`.
- `json_tree.dfy` (`JsonTree`): the Gson element tree and the accessors `read` uses.
- `bimaps.dfy` (`BiMaps`): the store, its consistency invariant and `BiMap.put`.
- `player_game_profiles.dfy` (`PlayerGameProfiles`): `PlayerGameProfile`.
- `environment_types.dfy` (`EnvironmentTypes`): `EnvironmentType` and `InnerType`.
- `player_cache_spec.dfy` (`PlayerCacheSpec`): the effect of update, `modify` and the two resolvers on the store, as functions, with their properties.
- `player_cache_format.dfy` (`PlayerCacheFormat`): what `read` makes of a document and what `write` / `create` produce, with the round trip.
- `player_cache.dfy` (`PlayerCaches`): the `PlayerCache` class, whose methods update the `cache` field in place and are proved against the two modules above.

The remote profile service is a parameter (`RemoteService`: whether a
session token is held, and how the query's future completes: with a
profile, with null, or exceptionally). The future's continuation runs
directly; a query that completes exceptionally skips it, so the
resolution fails with the store untouched. `syncSave` is counted by a ghost counter
`saves`, so "saved only when changed" is stated on every mutating method.

## Model

| member | source | states |
|---|---|---|
| `BiMaps.Empty` | src/main/java/dev/upcraft/ht/aspect/util/PlayerCache.java:35 | `HashBiMap.create()` and `clear()` give a consistent store with no entries |
| `BiMaps.BiMap.Get` | src/main/java/dev/upcraft/ht/aspect/util/PlayerCache.java:116 | `get` finds a name exactly when the UUID is a key, and it is that key's name |
| `BiMaps.BiMap.Put` | src/main/java/dev/upcraft/ht/aspect/util/PlayerCache.java:46 | `put` refuses exactly when the name is in the inverse view and is not already the UUID's own; otherwise it returns the previous name and the new UUID-to-name map is the old one with the UUID rebound |
| `BiMaps.ValidIsInjective` | src/main/java/dev/upcraft/ht/aspect/util/PlayerCache.java:35 | a consistent store never gives one name to two UUIDs |
| `BiMaps.ValidDeterminedByForward` | src/main/java/dev/upcraft/ht/aspect/util/PlayerCache.java:35 | the inverse view is determined by the UUID-to-name map |
| `BiMaps.PutSpec` | src/main/java/dev/upcraft/ht/aspect/util/PlayerCache.java:46 | `put` fails exactly when another UUID holds the name; otherwise it returns the previous name, binds both directions, evicts the old name from the inverse view and keeps the store one-to-one |
| `BiMaps.BiMap.InverseGet` | src/main/java/dev/upcraft/ht/aspect/util/PlayerCache.java:125 | the inverse lookup finds a UUID exactly when some UUID has that name, and that UUID has it |
| `BiMaps.BackwardKeysAreNames` | src/main/java/dev/upcraft/ht/aspect/util/PlayerCache.java:125 | in a consistent store a name has an inverse entry exactly when some UUID has that name |
| `PlayerCaches.PlayerCache.constructor` | src/main/java/dev/upcraft/ht/aspect/util/PlayerCache.java:35-39 | a new cache is empty, consistent and unsaved |
| `PlayerCaches.PlayerCache.ReadUsernameForId` | src/main/java/dev/upcraft/ht/aspect/util/PlayerCache.java:113-120 | returns a name exactly when the UUID is cached, and it is the cached name |
| `PlayerCaches.PlayerCache.ReadIdForUsername` | src/main/java/dev/upcraft/ht/aspect/util/PlayerCache.java:122-129 | returns a UUID exactly when some cached UUID has the name, and that UUID maps to it |
| `PlayerCaches.PlayerCache.SyncSave` | src/main/java/dev/upcraft/ht/aspect/util/PlayerCache.java:142 | each save adds one to the save count |
| `PlayerCacheSpec.ModifyEffect` | src/main/java/dev/upcraft/ht/aspect/util/PlayerCache.java:131-146 | saves exactly when the function reports a change; an exception propagates unsaved with the store as it was, since `modify` does not roll back and the model takes the function to throw before changing anything (true of `HashBiMap.put`, which checks the name first) |
| `PlayerCaches.PlayerCache.Modify` | src/main/java/dev/upcraft/ht/aspect/util/PlayerCache.java:131-146 | the new store, result and save count are those of `ModifyEffect`, and the store stays consistent |
| `PlayerCacheSpec.PutReportingChange` | src/main/java/dev/upcraft/ht/aspect/util/PlayerCache.java:45-48 | the predicate fails exactly when `put` does; otherwise it reports a change exactly when the previous name was absent or different, and rebinds the UUID |
| `PlayerCacheSpec.UpdateEffect` | src/main/java/dev/upcraft/ht/aspect/util/PlayerCache.java:44-48 | an update saves exactly when it reports a change; a refused put leaves the store; otherwise the UUID is rebound and the result says whether its name was absent or different |
| `PlayerCacheSpec.UpdateSpec` | src/main/java/dev/upcraft/ht/aspect/util/PlayerCache.java:44-48 | after an update the UUID has the name; the result and the save say whether the previous name was absent or different; a name held by another UUID fails with nothing changed or saved; the old name leaves the inverse view |
| `PlayerCacheSpec.UpdateSameNameIsNoop` | src/main/java/dev/upcraft/ht/aspect/util/PlayerCache.java:44-48 | rewriting the current name returns false, changes nothing and does not save |
| `PlayerCaches.PlayerCache.UpdatePlayerProfile` | src/main/java/dev/upcraft/ht/aspect/util/PlayerCache.java:44-48 | the new store, result and save count are those of `UpdateEffect` |
| `PlayerCacheSpec.GetProfileLookup` | src/main/java/dev/upcraft/ht/aspect/util/PlayerCache.java:52-60 | the service is offered exactly when a session token is held |
| `PlayerCacheSpec.CompleteEffect` | src/main/java/dev/upcraft/ht/aspect/util/PlayerCache.java:72-78 | a null answer gives the fallback unchanged and unsaved; a failed query fails the same way; a profile goes through the update, and the result is the remote's complete profile exactly when the update succeeds |
| `PlayerCacheSpec.ResolveByIdEffect` | src/main/java/dev/upcraft/ht/aspect/util/PlayerCache.java:62-83 | the store changes or is saved only after a miss with a session token and a remote profile; it fails only on a remote path; a success carries the queried id or the remote's profile |
| `PlayerCacheSpec.ResolveByUsernameEffect` | src/main/java/dev/upcraft/ht/aspect/util/PlayerCache.java:85-106 | the store changes or is saved only after a miss by name with a session token and a remote profile; it fails only on a remote path; a success carries the queried name or the remote's profile |
| `PlayerCacheSpec.ResolveByIdLocalHit` | src/main/java/dev/upcraft/ht/aspect/util/PlayerCache.java:62-83 | a cached id answers (id, cached name) whatever the service would say, with no change and no save |
| `PlayerCacheSpec.ResolveByIdMiss` | src/main/java/dev/upcraft/ht/aspect/util/PlayerCache.java:62-83 | a miss without a token or with a null answer gives the incomplete (id, absent) and leaves the store unchanged |
| `PlayerCacheSpec.ResolveByIdRemoteHit` | src/main/java/dev/upcraft/ht/aspect/util/PlayerCache.java:71-78 | a remote answer is written through the update and returned with the remote's UUID and username; it fails only on a name held by another UUID |
| `PlayerCacheSpec.ResolveLookupFailed` | src/main/java/dev/upcraft/ht/aspect/util/PlayerCache.java:71-78 | a miss whose remote query completes exceptionally makes both resolvers fail, with no change and no save, rather than fall back to the incomplete profile |
| `PlayerCacheSpec.ResolveByUsernameLocalHit` | src/main/java/dev/upcraft/ht/aspect/util/PlayerCache.java:85-106 | a cached name answers (cached id, name) whatever the service would say, with no change and no save |
| `PlayerCacheSpec.ResolveByUsernameMiss` | src/main/java/dev/upcraft/ht/aspect/util/PlayerCache.java:85-106 | a miss without a token or with a null answer gives the incomplete (absent, name) and leaves the store unchanged |
| `PlayerCacheSpec.ResolveByUsernameRemoteHit` | src/main/java/dev/upcraft/ht/aspect/util/PlayerCache.java:94-101 | a remote answer is stored and returned with the remote's canonical pair rather than the queried name |
| `PlayerCacheSpec.ResolvePreservesValid` | src/main/java/dev/upcraft/ht/aspect/util/PlayerCache.java:62-106 | both resolvers keep the store one-to-one |
| `PlayerCacheSpec.ResolveByIdThenByUsername` | src/main/java/dev/upcraft/ht/aspect/util/PlayerCache.java:62-106 | from an empty store, resolving an id that the service answers saves once and returns the complete profile; resolving that name next is a local hit |
| `PlayerCacheSpec.StaleNameBlocksResolution` | src/main/java/dev/upcraft/ht/aspect/util/PlayerCache.java:71-78 | when the remote answers a name still cached for another UUID, the resolution fails with the put's error and the store is unchanged |
| `PlayerCaches.PlayerCache.GetProfileForId` | src/main/java/dev/upcraft/ht/aspect/util/PlayerCache.java:62-83 | the result, new store and save count are those of `ResolveByIdEffect` |
| `PlayerCaches.PlayerCache.GetProfileForUsername` | src/main/java/dev/upcraft/ht/aspect/util/PlayerCache.java:85-106 | the result, new store and save count are those of `ResolveByUsernameEffect` |
| `PlayerCacheFormat.FormatVersion` | src/main/java/dev/upcraft/ht/aspect/util/PlayerCache.java:165 | an absent version counts as 0; a number is narrowed to `int`; a non-primitive version is a runtime failure |
| `PlayerCacheFormat.ReadDocument` | src/main/java/dev/upcraft/ht/aspect/util/PlayerCache.java:161-185 | the store is always consistent and empty unless the load succeeds; a root that is not an object, and a bad version, each fail exactly in their own case; a readable version above 0 returns normally as too new, carrying that version, with an empty store, and only such a version does; the load succeeds exactly for an object whose version reads as at most 0 and whose values are an array, and the store is then those entries loaded one by one into an empty store; an IOException exactly when the header is fine but values is missing or not an array |
| `PlayerCacheFormat.VersionGate` | src/main/java/dev/upcraft/ht/aspect/util/PlayerCache.java:165-169 | a version above 0 after narrowing to `int` loads nothing and does not throw; any other integer version passes the gate |
| `PlayerCacheFormat.StringVersionGate` | src/main/java/dev/upcraft/ht/aspect/util/PlayerCache.java:165-169 | a version written as the decimal text of an `int` is read as that `int`; above 0 it loads nothing and does not throw |
| `JavaLang.ParseIntToDecimal` | src/main/java/dev/upcraft/ht/aspect/util/PlayerCache.java:165 | `Integer.parseInt` reads back the decimal text of every `int` |
| `PlayerCacheFormat.DecodeEntry` | src/main/java/dev/upcraft/ht/aspect/util/PlayerCache.java:174-176 | only an object decodes; a decoded entry has primitive uuid and name members, its UUID is what `UUID.fromString` gives for the uuid text, and its name is the name text |
| `PlayerCacheFormat.WellFormedEntryDecodes` | src/main/java/dev/upcraft/ht/aspect/util/PlayerCache.java:174-176 | conversely, every object with primitive uuid and name members whose uuid text `UUID.fromString` accepts decodes to that UUID and the name text, whatever other members it has |
| `PlayerCacheFormat.LoadEntry` | src/main/java/dev/upcraft/ht/aspect/util/PlayerCache.java:173-180 | an entry that does not decode leaves the store; any entry either leaves it or rebinds its own UUID to its name; no UUID is ever dropped |
| `PlayerCacheFormat.LoadEntries` | src/main/java/dev/upcraft/ht/aspect/util/PlayerCache.java:172-181 | loading never drops a UUID already in the store |
| `PlayerCacheFormat.LoadEntriesGrowth` | src/main/java/dev/upcraft/ht/aspect/util/PlayerCache.java:172-181 | loading adds at most one UUID per entry |
| `PlayerCacheFormat.LoadEntriesValid` | src/main/java/dev/upcraft/ht/aspect/util/PlayerCache.java:172-181 | the entry loop keeps the store one-to-one |
| `PlayerCacheFormat.MalformedEntryIsSkipped` | src/main/java/dev/upcraft/ht/aspect/util/PlayerCache.java:173-180 | a malformed entry (not an object, bad or missing uuid or name) is skipped on its own; the rest load as if it were absent |
| `PlayerCacheFormat.ConflictingEntryIsSkipped` | src/main/java/dev/upcraft/ht/aspect/util/PlayerCache.java:177-179 | an entry whose name another UUID already holds is skipped on its own |
| `PlayerCacheFormat.WellFormedEntryIsLoaded` | src/main/java/dev/upcraft/ht/aspect/util/PlayerCache.java:174-177 | a well-formed entry with a free name binds its UUID to its name and keeps every other binding |
| `PlayerCacheFormat.DecodeEncodedEntry` | src/main/java/dev/upcraft/ht/aspect/util/PlayerCache.java:193-196 | the entry `write` emits decodes back to its pair |
| `PlayerCacheFormat.EncodeEntries` | src/main/java/dev/upcraft/ht/aspect/util/PlayerCache.java:192-197 | `write` emits one object per visited key |
| `PlayerCacheFormat.EncodeEntriesAt` | src/main/java/dev/upcraft/ht/aspect/util/PlayerCache.java:192-197 | the i-th object written is the entry of the i-th key visited |
| `PlayerCacheFormat.WrittenDocument` | src/main/java/dev/upcraft/ht/aspect/util/PlayerCache.java:189-198 | the written document is an object whose version reads as 0 and whose values are the given entries |
| `PlayerCacheFormat.ReadWrittenDocument` | src/main/java/dev/upcraft/ht/aspect/util/PlayerCache.java:161-172 | a written document passes the header checks, so reading it loads exactly its entries into an empty store |
| `Uuids.ToStringRoundTrip` | src/main/java/dev/upcraft/ht/aspect/util/PlayerCache.java:175 | parsing the printed form of a UUID gives it back |
| `PlayerCacheFormat.WriteThenRead` | src/main/java/dev/upcraft/ht/aspect/util/PlayerCache.java:188-200 | reading the document written for a consistent store gives that store back, in any iteration order |
| `PlayerCacheFormat.CreateThenRead` | src/main/java/dev/upcraft/ht/aspect/util/PlayerCache.java:203-208 | reading the created document gives an empty store |
| `PlayerCaches.PlayerCache.Read` | src/main/java/dev/upcraft/ht/aspect/util/PlayerCache.java:161-185 | the result and new store are those of `ReadDocument`; nothing is saved |
| `PlayerCaches.PlayerCache.Write` | src/main/java/dev/upcraft/ht/aspect/util/PlayerCache.java:188-200 | writes version 0 and one object per entry, visiting each key once, and reading the result gives the store back |
| `PlayerCaches.PlayerCache.Create` | src/main/java/dev/upcraft/ht/aspect/util/PlayerCache.java:203-208 | writes version 0 with no entries, which reads back as an empty store |
| `PlayerGameProfiles.NewProfile` | src/main/java/dev/upcraft/ht/aspect/api/auth/PlayerGameProfile.java:15-19 | construction fails with an argument error exactly when both fields are absent, and otherwise keeps both |
| `PlayerGameProfiles.PlayerGameProfile.ToString` | src/main/java/dev/upcraft/ht/aspect/api/auth/PlayerGameProfile.java:55-61 | the text starts with the class name and `{uuid=`, followed by the UUID in canonical form or `null`, and ends with `}` |
| `PlayerGameProfiles.PlayerGameProfile.UnwrapId` | src/main/java/dev/upcraft/ht/aspect/api/auth/PlayerGameProfile.java:21-23 | returns the UUID when present, else a null-reference error naming the profile |
| `PlayerGameProfiles.PlayerGameProfile.Id` | src/main/java/dev/upcraft/ht/aspect/api/auth/PlayerGameProfile.java:25-27 | empty exactly when `unwrapId` fails, and otherwise what it returns |
| `PlayerGameProfiles.PlayerGameProfile.UnwrapUsername` | src/main/java/dev/upcraft/ht/aspect/api/auth/PlayerGameProfile.java:29-31 | returns the username when present, else a null-reference error naming the profile |
| `PlayerGameProfiles.PlayerGameProfile.Username` | src/main/java/dev/upcraft/ht/aspect/api/auth/PlayerGameProfile.java:33-35 | empty exactly when `unwrapUsername` fails, and otherwise what it returns |
| `PlayerGameProfiles.PlayerGameProfile.IsComplete` | src/main/java/dev/upcraft/ht/aspect/api/auth/PlayerGameProfile.java:37-39 | true exactly when both unwraps succeed |
| `PlayerGameProfiles.SomeUnwrapSucceeds` | src/main/java/dev/upcraft/ht/aspect/api/auth/PlayerGameProfile.java:15-31 | a constructed profile can always unwrap at least one field |
| `PlayerGameProfiles.PlayerGameProfile.Equals` | src/main/java/dev/upcraft/ht/aspect/api/auth/PlayerGameProfile.java:42-48 | equal exactly when uuid and username are both equal |
| `PlayerGameProfiles.PlayerGameProfile.HashCode` | src/main/java/dev/upcraft/ht/aspect/api/auth/PlayerGameProfile.java:51-53 | `Objects.hash(uuid, username)` is an `int` |
| `PlayerGameProfiles.EqualProfilesHashEqually` | src/main/java/dev/upcraft/ht/aspect/api/auth/PlayerGameProfile.java:42-53 | equal profiles hash equally |
| `EnvironmentTypes.InnerType.Name` | src/main/java/dev/upcraft/ht/aspect/util/EnvironmentType.java:59-72 | only UNKNOWN has no name |
| `EnvironmentTypes.FromString` | src/main/java/dev/upcraft/ht/aspect/util/EnvironmentType.java:20-28 | the result always carries the input as its name; it is PRODUCTION exactly for "production", DEVELOPMENT exactly for "development", UNKNOWN exactly otherwise |
| `EnvironmentTypes.GetDefault` | src/main/java/dev/upcraft/ht/aspect/util/EnvironmentType.java:30-32 | the default is the production type named "production" |
| `EnvironmentTypes.Name` | src/main/java/dev/upcraft/ht/aspect/util/EnvironmentType.java:20-36 | `fromString` of a value's name gives that value back exactly for the two constants and for unknown values whose name is not a constant's |
| `EnvironmentTypes.KnownConstantsRoundTrip` | src/main/java/dev/upcraft/ht/aspect/util/EnvironmentType.java:9-28 | each known constant is what `fromString` gives for its own name |
| `EnvironmentTypes.FromStringInjective` | src/main/java/dev/upcraft/ht/aspect/util/EnvironmentType.java:20-28 | `fromString` never maps two strings to equal types |
| `EnvironmentTypes.EnvironmentType.Equals` | src/main/java/dev/upcraft/ht/aspect/util/EnvironmentType.java:38-45 | equal exactly when inner type and name are both equal |
| `EnvironmentTypes.EnvironmentType.HashCode` | src/main/java/dev/upcraft/ht/aspect/util/EnvironmentType.java:47-50 | the name's `String.hashCode`, an `int` |
| `EnvironmentTypes.HashDependsOnlyOnName` | src/main/java/dev/upcraft/ht/aspect/util/EnvironmentType.java:47-50 | values with the same name hash equally, whatever their inner types, so equal values do |

## Where the code decides

The model follows the code where it is stricter or different from the
system's general design:

- Name conflicts: `BiMap.put` (not `forcePut`) refuses a name another UUID
  holds, so such an update throws, changes nothing and saves nothing, and a
  resolution whose remote answer carries such a name fails rather than
  evicting the stale entry (`StaleNameBlocksResolution`).
- `read` clears the store before anything else, so after a rejected version
  or any failure the store is empty, not left at its previous contents.
- `read` has two failure kinds: a root that is not an object or a bad
  `format_version` throws a runtime exception outside the try block; only a
  missing or non-array `values` becomes the `IOException`.
- `format_version` is narrowed to `int` (a number such as 4294967296 reads
  as 0), may be a numeric string, and any value up to 0, negative ones
  included, passes the gate.

## Left out

- Locking: the read/write locks around the store (PlayerCache.java lines 114-128 and 132-139) are not modelled; every method runs alone, so releasing the lock when the update throws has nothing to state.
- Asynchrony: the remote query's future and its continuation on the world's executor are replaced by the service's answer as a parameter and a direct call; an exceptional completion is the answer `QueryFailed` and propagates as the resolution's failure. Concurrent resolutions of the same key, and how the profile service client itself decides to fail (timeouts, HTTP errors), are not modelled.
- Logging, including the rate-limited warning when no session token is held: side effects only.
- `syncLoad` (directory creation and the bare-mode check) and the disk-file base class are not part of this model; `syncSave` is only counted, and a failing save is not modelled.
- `getIdForUsername`: a deprecated projection of `getProfileForUsername`.
- JSON text: parsing and pretty-printing by Gson are not modelled; a document is the element tree. Numbers are integral and written in plain decimal, so fractional or exponent-form numbers, and the original text of a number that `getAsString` would return, are not modelled.
- Object member order and the store's iteration order: `write` may visit the keys in any order (`Write` returns the order it used).
- Uuids.FromString: accepts exactly the canonical 8-4-4-4-12 hex form; the non-canonical forms Java's fallback parser also accepts (short groups, a leading sign) are rejected.
- JavaLang.ParseInt32: ASCII digits only; Java's `Integer.parseInt` also accepts other Unicode decimal digits.
- Strings are sequences of characters treated as UTF-16 code units; `String.hashCode` of characters outside the Basic Multilingual Plane is not modelled.
- Remote profiles always carry both a UUID and a username; a remote profile with a null field is not modelled.
- Null arguments: a null id, name or `EnvironmentType` name (for which `hashCode` would throw) is not modelled.
- `toString` of `EnvironmentType`.
- PlayerGameProfiles.PlayerGameProfile.ToString: its contract fixes the prefix, the UUID part and the closing brace; the username part is stated only by the body.
- `ENV_KEY` is kept as a constant; reading the environment is configuration I/O outside this model.
