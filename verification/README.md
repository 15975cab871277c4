# JWT token lifecycle, modelled in Dafny

A model of the token-lifecycle core of a PHP JWT authentication library. It covers two parts.

- **The payload factory** (`src/Factory.php`) assembles a payload's claims in a fixed order:
  - the default claims, with `exp` dropped when the ttl is null;
  - then the custom claims, which overwrite defaults;
  - then a generated `jti`, but only when none is present yet.

  Each value is then resolved into a claim object, and the payload validator accepts or rejects the result.
- **The manager** (`src/Manager.php`) encodes payloads into tokens, decodes tokens, and invalidates them through a blacklist. It also refreshes a token. A refresh carries the old `sub` and `iat` and the persistent claims into a new payload, and with the blacklist enabled it lists the old token.

## Layout

| module | file | models |
|---|---|---|
| `Wrappers` | `wrappers.dfy` | `Option` and `Result` |
| `Entries` | `entries.dfy` | ordered name-to-value collections (a PHP array with string keys, a Laravel `Collection`). `put` replaces a value in place or appends it; putting a list of pairs lets the later value of a name win. |
| `Claims` | `claims.dfy` | raw claim values, claim objects and payloads; `Payload::get()` and `$payload[name]` |
| `PayloadFactory` | `payload_factory.dfy` | `src/Factory.php` |
| `BlacklistStore` | `blacklist_store.dfy` | the blacklist as a map from payload identity to lifetime (`add` or `addForever`) |
| `TokenManager` | `token_manager.dfy` | `src/Manager.php` |

## Design decisions

- **Collaborators are parameters.** The JWT provider, the claim factory (`make`, `get`), the payload validator, the `jti` hash and the blacklist's key for a payload are function-valued fields of a `Services` value. They are passed to every operation.
- **Time and randomness are parameters.** Every `make()` gets its own `Moment`. A moment holds the clock reading that the claim factory's `make` and the validator work with, and a salt that stands for `Str::quickRandom`. Time may pass between two makes, so a later read can get new `iat`, `nbf` or `exp` claims, and the validator can reject a token it accepted before.
- **Manager operations return a `Step`.** A step is the manager state afterwards together with a result or an error. A PHP exception leaves the objects as far as the code got, so the state matters on the error path too.

The model follows the code as written, including the following.

- `$this->claims` is created once in the factory's constructor (`src/Factory.php:62`). Every `make()` puts into the same collection, so claims accumulate across calls.
- Dropping `exp` rewrites `defaultClaims` for good (`src/Factory.php:116-117`).
- `array_search` returns key 0 for an `exp` listed first. PHP reads 0 as false, so that `exp` is kept even with a null ttl.
- `refresh` switches the refresh flow on (`src/Manager.php:126`) and nothing switches it off.
- `refresh` passes `$resetClaims` to `make()` (`src/Manager.php:137`). `make` takes no argument (`src/Factory.php:70`), so the flag has no effect and the model drops it.

Several consequences of these choices are proved as lemmas:

- decoding the same token again changes nothing in the factory's collection when the defaults come out as they did, that is, when the clock has not moved or the token carries every default name. It then gives the same payload unless the validator, at the later time, rejects it (`ReadAgainSamePayload`);
- a refreshed payload keeps the old token's `jti`, when no default name, custom claim or persistent name is `jti` and the factory's collection has no duplicate names (`RefreshReusesJti`);
- a refreshed payload keeps every claim name of the old token (`RefreshKeepsEveryOldClaim`);
- when the blacklist files payloads by `jti`, the new token is already blacklisted when it is issued, under the same conditions on `jti` and duplicates (`RefreshedTokenAlreadyBlacklisted`).

The two source files declare different namespaces: `Tymon\JWTAuth` in `src/Factory.php:12` and `PHPOpenSourceSaver\JWTAuth` in `src/Manager.php:12`. The model treats the manager's payload factory as the `Factory` of `src/Factory.php`.

## Model

| member | source | states |
|---|---|---|
| PayloadFactory.NewDefaultNames | src/Factory.php:39-44 | With the constructor's ttl of 60, all four standard names `iss`, `iat`, `exp` and `nbf` are effective defaults. |
| PayloadFactory.NewFactoryBuildsDefaults | src/Factory.php:39-44 | A new factory's first build holds exactly iss, iat, exp, nbf and jti. Each of the four standard names holds the claim factory's `make` of that name at the build's time. |
| PayloadFactory.BuildFromEmpty | src/Factory.php:113-135 | A build over an empty collection without custom claims holds exactly the effective default names and `jti`, each default holding the claim made at the build's time. |
| PayloadFactory.EffectiveDefaults | src/Factory.php:115-118 | Only the first `exp` of the list can be removed. It is removed exactly when the ttl is null and its array key is non-zero. Otherwise the list is unchanged, and no name is ever added. |
| PayloadFactory.DefaultListWithoutTtl | src/Factory.php:116-117 | With a null ttl the standard list loses `exp` and keeps the keys of the rest: iss at 0, iat at 1, nbf at 3. |
| PayloadFactory.ExpNotAddedWithoutTtl | src/Factory.php:116-123 | With a null ttl and a single `exp` under a non-zero key, the build adds no `exp`, and every other default name is added. |
| PayloadFactory.ExpDropped | src/Factory.php:115-118 | With a null ttl and a single `exp` under a non-zero key, the effective names are exactly the listed names other than `exp`. |
| PayloadFactory.ExpAtKeyZeroKept | src/Factory.php:116 | An `exp` under key 0 is never dropped, and the build holds `exp` even with a null ttl. |
| PayloadFactory.DefaultNamesShrink | src/Factory.php:116-117 | After a build, the factory's default names are a subset of those it had before. A dropped `exp` stays dropped. |
| PayloadFactory.AddClaim | src/Factory.php:101-106 | After `addClaim`, the name holds the given value and every other name keeps its value. The key set grows by that name only, and the other fields are unchanged. |
| PayloadFactory.AddClaims | src/Factory.php:84-91 | Every given name holds the value of its last pair, and every other name is untouched. Existing names keep their positions. A collection without duplicates stays without duplicates. |
| PayloadFactory.AddClaimsInOrder | src/Factory.php:86-88 | Adding a list of pairs equals adding its first pair and then the rest, so the pairs are applied left to right. |
| PayloadFactory.AddDefaultClaims | src/Factory.php:120-123 | The effective defaults are stored back. Each effective default name holds the claim factory's claim made at the given time, and every other name is unchanged. |
| PayloadFactory.AddJti | src/Factory.php:128-132 | A present `jti` is left alone and the collection is unchanged. Otherwise exactly one entry is appended: `jti`, holding the hash of the collection before it with the salt. |
| PayloadFactory.BuildClaims | src/Factory.php:113-135 | The key set is the prior keys plus the effective defaults plus the custom keys plus `jti`. Every name other than `jti` holds its custom value, else its default claim, else its prior value. A `jti` already present from any layer is kept, and otherwise the last entry is the hash of all earlier entries. Prior names keep their positions. |
| PayloadFactory.LayerClaims | src/Factory.php:113-126 | After the defaults and then the custom claims are put, every name holds its custom value, else its default claim made at the given time, else its prior value. The key set grows by exactly the default and custom names, and prior names keep their positions. |
| PayloadFactory.RebuildKeepsClaims | src/Factory.php:113-135 | A second build with the same custom claims leaves the collection exactly as the first left it, whatever the salt, provided the defaults it makes itself (those the custom claims leave open) come out as they did: the clock has not moved, or the custom claims cover every default. |
| PayloadFactory.RebuildKeepsClaim | src/Factory.php:113-135 | In a second build, perhaps at a later time, a default name that the custom claims leave open gets the claim made at the second time. Every other name keeps the value the first build gave it. |
| PayloadFactory.ResolveClaims | src/Factory.php:142-147 | Resolution keeps the names and their order. A claim object is kept as it is, and a raw value becomes the claim factory's `get(name, value)`. |
| PayloadFactory.WithClaims | src/Factory.php:156-159 | A payload exists exactly when the validator, at the make's time and in the factory's refresh-flow mode, accepts the claims. It then holds those claims, and otherwise the result carries the validator's reason. |
| PayloadFactory.Make | src/Factory.php:70-75 | The factory left behind is exactly the one `buildClaims` produces, whether or not validation succeeds, so its key set is the prior keys, plus the effective defaults, plus the custom keys, plus `jti`. A payload exists iff the validator accepts the resolved collection at the make's time, and it then holds that collection. Custom claims are resolved from their last value. |
| PayloadFactory.New | src/Factory.php:38-63 | A new factory has a ttl of 60, no claims, no custom claims and the refresh flow off. Its defaults are `iss`, `iat`, `exp`, `nbf` under keys 0 to 3. |
| PayloadFactory.SetDefaultClaims | src/Factory.php:178-193 | `getDefaultClaims` after `setDefaultClaims` gives back the names in order, under keys 0, 1, ..., and nothing else changes. |
| TokenManager.New | src/Manager.php:50-73 | The constructor leaves the blacklist enabled, the persistent and custom claims empty and the refresh flow off, and keeps the blacklist and the factory it is given. |
| TokenManager.SetBlacklistEnabled | src/Manager.php:225-230 | Only the blacklist flag changes. |
| TokenManager.DisabledBlacklistRefusesInvalidate | src/Manager.php:153-155 | After the blacklist is switched off, `invalidate` fails with the disabled error and the state is unchanged. |
| TokenManager.SetPersistentClaims | src/Manager.php:239-244 | Only the persistent-claims list changes. |
| TokenManager.SettersSelectCarryOver | src/Manager.php:173-186 | After the two setters, the refresh claims (`buildRefreshClaims`) have exactly the custom claims given, the persistent names that the old payload has, and `sub` and `iat`. |
| TokenManager.Encode | src/Manager.php:82-87 | The token is exactly the provider's encoding of the payload's plain claim array. A provider failure is passed on. |
| TokenManager.ReadToken | src/Manager.php:101-106 | A provider failure comes first, and the state is then unchanged. Otherwise the factory's collection afterwards, even when validation rejects it, has the prior keys, the effective defaults, the token's claim names and `jti`, and holds each token claim's plain value. On success every claim of the token appears in the payload, built by the claim factory from the token's value, so a token's `jti` is preserved. Every payload has a `jti`, and only the factory state changes. |
| TokenManager.ReadAgainKeepsClaim | src/Manager.php:101-106 | A second read of the same token, perhaps later, gives a default name the token lacks the claim made at the second time. Every other name keeps the value the first read left. |
| TokenManager.EncodeThenReadKeepsClaims | src/Manager.php:82-106 | Suppose the provider decodes what it encoded. A token encoded from a payload then reads back with every claim of that payload, rebuilt by the claim factory. |
| TokenManager.ReadAgainSamePayload | src/Manager.php:101-106 | Suppose every default name the token lacks comes out of the claim factory the same at both times. A second read of the token then leaves the factory's collection unchanged. It gives the same payload when the validator still accepts it at the second time, and the validator's reason otherwise. |
| TokenManager.Decode | src/Manager.php:99-113 | The result is the blacklisted error exactly when the token reads and validates, the check is requested, the blacklist is enabled, and it holds the payload. Otherwise it is the read's result, so provider and validation failures come first. |
| TokenManager.Invalidate | src/Manager.php:151-161 | With the blacklist disabled, `invalidate` refuses and changes nothing. It never fails as blacklisted, and a failure leaves the blacklist as it was. On success, the payload read without the check is listed, forever or timed according to the flag, and no other identity changes. |
| TokenManager.InvalidateIgnoresBlacklistContents | src/Manager.php:157-160 | The outcome of `invalidate` does not depend on what the blacklist holds, so invalidating an already-listed token again succeeds. |
| TokenManager.InvalidateThenDecodeRejected | src/Manager.php:99-161 | Suppose `invalidate` succeeded and the defaults the token lacks come out the same at the later time. Decoding the token again with the check then fails. It fails as blacklisted while the validator still accepts the claims, and with the validator's reason once it does not. |
| TokenManager.BuildRefreshClaims | src/Manager.php:170-186 | The keys are the custom names, plus the persistent names the old payload has, plus `sub` and `iat`. `sub` and `iat` hold the old payload's values, with null for an absent claim. A persistent name holds the old value, and every other name holds its last custom value. There are no duplicates. |
| TokenManager.CarriedClaims | src/Manager.php:173-180 | The persistent claims of the old payload override the custom claims, and the rest of the old payload is dropped. |
| TokenManager.SubIat | src/Manager.php:181-184 | The last layer holds exactly `sub` and `iat`, with the old payload's values. |
| TokenManager.RevokeForRefresh | src/Manager.php:130-133 | The old token is invalidated only when the blacklist is enabled. Otherwise nothing happens. |
| TokenManager.Reissue | src/Manager.php:136-138 | The refresh claims go in as custom claims. The factory's collection afterwards has the prior keys, the effective defaults, the refresh claim names and `jti`, and holds each refresh claim's value. The new payload holds each of them, resolved, and a name they do not set that is not a default keeps its value in the collection. The only possible failure is validation. |
| TokenManager.RevokeAndReissue | src/Manager.php:128-138 | After the old token decodes, only a provider or validation failure can occur. The flags and lists are unchanged, and with the blacklist disabled the blacklist is untouched. |
| TokenManager.RefreshedPayload | src/Manager.php:124-138 | The refresh flow is on afterwards. A failed decode of the old token is passed on as it is. Refresh never fails because the blacklist is disabled. With the blacklist disabled, refresh never fails as blacklisted and does not touch the blacklist. |
| TokenManager.Refresh | src/Manager.php:124-139 | Refresh succeeds exactly when the refreshed payload is made and the provider encodes it, and the token is that encoding. A failure of the old token's decode is the failure refresh reports. |
| TokenManager.BlacklistedTokenNotRefreshable | src/Manager.php:126-128 | With the blacklist enabled, a token that reads but is listed cannot be refreshed: refresh fails as blacklisted. |
| TokenManager.RefreshCarriesSubAndIat | src/Manager.php:178-185 | The refreshed payload's `sub` and `iat` are built from the old payload's values, whatever the defaults, custom claims or persistent claims say. |
| TokenManager.RefreshBlacklistsOldToken | src/Manager.php:124-138 | With the blacklist enabled, once the old token decodes, refresh lists the payload that `invalidate` reads from it, forever or timed according to the flag. This holds whether or not the new payload is then made. If that read fails, refresh fails with its error and the blacklist is unchanged. If the defaults come out as they did and the validator still accepts the old claims, the listed payload is the old payload. |
| TokenManager.RefreshListsOldJti | src/Manager.php:128-137 | Suppose no default, custom claim or persistent name mentions `jti`. After a successful refresh, the payload `invalidate` listed then carries the old payload's `jti`, whatever the clock did in between. |
| TokenManager.RefreshKeepsFactoryJti | src/Manager.php:128-137 | Suppose neither the defaults, nor the custom claims, nor the persistent names mention `jti`. The factory then keeps the `jti` the old token's decode put there, and makes the new payload with it. |
| TokenManager.RefreshReusesJti | src/Manager.php:128-137 | Under those conditions, the refreshed payload's `jti` is the old payload's. |
| TokenManager.RefreshKeepsEveryOldClaim | src/Manager.php:128-137 | Every claim name of the old payload is present in the refreshed payload. |
| TokenManager.RefreshedTokenAlreadyBlacklisted | src/Manager.php:130-138 | When the blacklist files payloads by `jti`, the payload a refresh issues is already listed when it is issued. |
| TokenManager.OldTokenRejectedAfterRefresh | src/Manager.php:124-139 | After a successful refresh with the blacklist enabled and payloads filed by `jti`, decoding the old token with the check never succeeds. |

## Left out

- Signing and verification inside the JWT provider. `encode` and `decode` are opaque functions that may fail.
- The blacklist's storage, key derivation and TTL or grace-period arithmetic. Blacklist code is not part of this model; it is a map from identity to lifetime, and the identity of a payload is a parameter.
- The boolean that `add` and `addForever` return. `invalidate` succeeds with `true`.
- `md5` and `Str::quickRandom` in `jti()` (`src/Factory.php:166-169`). The hash is an uninterpreted function of the collection as it stands and a salt.
- The claim factory's `make` and `get`, and the payload validator. Their code is not part of this model; they are uninterpreted functions. `make` and the validator take the time, and the validator also takes the refresh-flow flag. `get` is modelled as not depending on the time. Exceptions raised while building a single claim are not modelled; only the validator can reject.
- The `CustomClaims` and `RefreshFlow` traits. Their code is not part of this model, and only their setters and fields appear.
- The getters `validator`, `getPayloadFactory`, `getJWTProvider` and `getBlacklist`. They are plain accessors.
- Magic `__call` (`src/Factory.php:213-218`). It is `addClaim` under another name.
- The constructors' dependency injection. `New` builds the initial state directly.
- `tests/Providers/JWT/ProviderEmptySecretTest.php`. It concerns a provider whose code is not part of this model.
- `src/Claims/JwtId.php`. It only fixes the claim name `jti`, which is the constant `Claims.JTI`.
- `setDefaultClaims` with an associative array. Defaults are a list of (key, name) slots, and the setter installs a list with keys 0, 1, 2, ...
- PHP's renumbering of integer keys in `array_merge`. Claim names are strings.
- Claim values. They are text, integers, booleans or null, without floating point, nested arrays or JSON encoding.
- The ttl setter. `src/Factory.php` has none. The ttl is still a field of the factory, so the null-ttl branch can be stated.
- The `$resetClaims` argument of `refresh`. `make` ignores it.
- `$payload['sub']` on a payload without that claim. `src/Payload.php` is not part of this model, so the value is taken to be null.
- TokenManager.RefreshKeepsFactoryJti: stated only when the defaults, custom claims and persistent names do not mention `jti` and the collection starts without duplicates. Otherwise a refresh can replace the `jti`.
- TokenManager.RefreshReusesJti: stated under the same conditions as RefreshKeepsFactoryJti.
- TokenManager.RefreshedTokenAlreadyBlacklisted: stated under the same conditions, for a blacklist that files payloads by `jti` alone.
- TokenManager.OldTokenRejectedAfterRefresh: stated under the same conditions, for a blacklist that files payloads by `jti` alone.
- BlacklistStore.Add: listing an identity that is already listed replaces its lifetime with the timed one, so a forever entry becomes timed. The blacklist code is not part of this model, so this overwrite is a modelling choice.
- PayloadFactory.RebuildKeepsClaims: the whole collection is promised to stay unchanged only when the defaults come out as they did. RebuildKeepsClaim states the general case, in which an uncovered default gets the later claim.
- TokenManager.ReadAgainSamePayload: stated only when the defaults the token lacks come out as they did. ReadAgainKeepsClaim states what a later read changes in general.
- TokenManager.InvalidateThenDecodeRejected: stated only when the defaults the token lacks come out as they did. Otherwise the second read may build a different payload, and whether it is refused depends on the blacklist's identity for it.
- TokenManager.RefreshBlacklistsOldToken: the listed payload is promised to be the old one only when the defaults come out as they did and the validator still accepts the old claims. In general it is the payload `invalidate` reads.
