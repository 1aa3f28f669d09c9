# User record model

A Dafny model of the user schema of the title registry API (`src/models/user.js`).
A user is a profile keyed by its wallet address. The schema stores that address
lower-cased in `_id` and exposes it under the alias `address`. Each user also has
an optional email, a gallery flag, the time of the last faucet request and a list
of references to the giveaways the user took part in. Around that record the file
defines three pieces of logic, and the model covers all three:

- the derived flag `canRequestFaucetTokens`: the faucet must be enabled, and the
  user must either never have asked or have waited at least the cooldown;
- the `toJSON` transform, which removes `_id`, `id` and `giveawaysParticipatedIn`
  from the object being serialised, in place;
- the pre-query hook `makeQueryAddressesCaseInsensitive`, which lowercases, in
  place, a string held under `id`, `_id` or `address` in the conditions of a query.

Files:

- `ascii.dfy` (module `Ascii`): ASCII lowercasing (`toLowerCase`) and equality up to case.
- `js_values.dfy` (module `JsValues`): JavaScript values and `JsObject`, a class for a
  mutable plain object whose one field is its property map.
- `user.dfy` (module `UserModel`): the user record and its defaults, the faucet rule,
  the document view, the transform and the JSON representation, and the query hook.

Times are integer milliseconds, as `Date.now()` and `getTime()` return them. The
current time and the faucet configuration (`enabled`, `cooldown`) are parameters.

The two in-place operations are methods on a `JsObject`. `Transform` deletes three
keys and returns the same object. `MakeQueryAddressesCaseInsensitive` makes the
source's three guarded assignments one after another. Each method's postcondition
ties the new property map to a pure function of the old one: `StripInternalKeys`
and `NormalizedQuery`. `NormalizedQuery` carries the lemmas; `StripInternalKeys`
states its property in its postcondition.

## Model

| member | source | states |
|---|---|---|
| `Ascii.LowerChar` | src/models/user.js:67-69 | the result is never an upper-case letter; a character outside 'A'..'Z' is kept; an upper-case letter becomes the matching lower-case one |
| `Ascii.ToLower` | src/models/user.js:67-69 | same length as the input; each character is lowercased at its own position; the result is in lower case |
| `Ascii.ToLowerFixesExactlyLowerCase` | src/models/user.js:17 | lowercasing leaves a string unchanged if and only if the string has no upper-case letter |
| `Ascii.ToLowerIdempotent` | src/models/user.js:67-69 | lowercasing twice gives the same string as lowercasing once |
| `Ascii.ToLowerEqualIff` | src/models/user.js:64-69 | two strings lowercase to the same string if and only if they are equal position by position up to case |
| `JsValues.JsObject.Set` | src/models/user.js:67-69 | assigning a property changes that key only |
| `JsValues.JsObject.Delete` | src/models/user.js:49-53 | `delete` removes exactly that key and keeps every other property |
| `UserModel.CreateUser` | src/models/user.js:11-35 | creation fails on path `_id` if and only if the address is missing or empty; otherwise the stored `_id` is lower case and equal to the address up to case; email and faucet timestamp are null, the gallery flag is false and the giveaway list is empty |
| `UserModel.AddressesEqualUpToCaseCollide` | src/models/user.js:14-18 | two created users get the same `_id` if and only if their addresses are equal up to case |
| `UserModel.CanRequestFaucetTokens` | src/models/user.js:38-40 | a granted request implies the faucet is enabled and, when there is a last request at `last`, that `last + cooldown <= now` |
| `UserModel.DisabledFaucetRefuses` | src/models/user.js:39 | with the faucet disabled nobody may request tokens, whatever their last request |
| `UserModel.NeverRequestedMayRequest` | src/models/user.js:39 | with the faucet enabled, a user without a last-request time may request, for any cooldown |
| `UserModel.CooldownBoundary` | src/models/user.js:39 | with the faucet enabled and a last request at `last`, eligibility holds if and only if `now - last >= cooldown`; true exactly at `last + cooldown`, false one millisecond earlier |
| `UserModel.EligibilityPersists` | src/models/user.js:38-40 | a user who may request at some time may still request at any later time |
| `UserModel.EncodeRefs` | src/models/user.js:32-35 | the giveaway list is encoded as ObjectId references, one per entry, in order |
| `UserModel.ToObjectView` | src/models/user.js:60-62 | the document with virtuals has exactly the stored paths plus `id`, `address` and `canRequestFaucetTokens`; `_id`, `id` and `address` hold the stored address; `email` and `faucetLastRequestedAt` hold the stored value or null; `isGalleryEnabled` holds the stored flag; the giveaway list holds one ObjectId reference per entry, in order; `canRequestFaucetTokens` is the boolean faucet rule |
| `UserModel.StripInternalKeys` | src/models/user.js:49-53 | a key is kept if and only if it is not `_id`, `id` or `giveawaysParticipatedIn`; each kept key keeps its value |
| `UserModel.Transform` | src/models/user.js:45-57 | the transform returns the same object, whose properties are now the old ones minus the three internal keys |
| `UserModel.ToJson` | src/models/user.js:42-58 | the JSON form has exactly the keys `address`, `email`, `isGalleryEnabled`, `faucetLastRequestedAt` and `canRequestFaucetTokens`, none of the internal ones; `canRequestFaucetTokens` is the boolean faucet rule; every value is the one in the document view |
| `UserModel.ToJsonHidesGiveaways` | src/models/user.js:52-53 | two users that differ only in their giveaway lists have the same JSON form |
| `UserModel.NormalizedQuery` | src/models/user.js:65-71 | the hook keeps the key set; a string under `id`, `_id` or `address` becomes its lower-case form; every other value is unchanged |
| `UserModel.MakeQueryAddressesCaseInsensitive` | src/models/user.js:65-71 | after the hook the query's conditions equal `NormalizedQuery` of the conditions before it; each step tests `typeof ... === 'string'` with `JsObject.HoldsString` (an absent key is not a string) and assigns with `JsObject.Set` |
| `UserModel.NormalizedQueryIdempotent` | src/models/user.js:67-69 | running the hook twice gives the same conditions as running it once |
| `UserModel.NormalizedValueEqualIff` | src/models/user.js:67-69 | under one key, two values are normalised to the same value if and only if they agree up to address case |
| `UserModel.NormalizedQueryEqualIff` | src/models/user.js:64-69 | two queries are equal after the hook if and only if they have the same keys and differ at most in the case of strings under the address keys |
| `UserModel.NormalizedQueryIgnoresAddressCase` | src/models/user.js:64-69 | a query with an address string and the same query with that string lowercased are equal after the hook |
| `UserModel.LookupByIdIsCaseInsensitive` | src/models/user.js:64-68 | after the hook, an `_id` condition holding any string equals the `_id` of the user created from an address if and only if the string equals the address up to case |

## Left out

- Registering the model with the database connection and importing the mapper library (`src/models/user.js:1-4`, `80`): these are calls into a library.
- Which query operations trigger the hook, and the `next()` continuation (`src/models/user.js:70`, `73-78`): the model covers only what the hook does to the conditions.
- The automatic `createdAt` and `updatedAt` fields and `usePushEach` (`src/models/user.js:6-9`). The mapper maintains them, so the document view and the JSON form in this model do not include them.
- The version key `__v` and the `versionKey: false` option: no version field is part of the model.
- Uniqueness of `_id` across users: the database enforces it. The model proves only that two addresses equal up to case give the same `_id`.
- Loading the configuration: `enabled` and `cooldown` are parameters, and the model takes `enabled` as a boolean. In the getter, a falsy non-boolean `enabled` (`undefined`, `0`, `''`, `NaN`) is returned by `&&` as it is, so `canRequestFaucetTokens` is then not a boolean (and `undefined` drops the key from the JSON form); a truthy non-boolean yields the boolean comparison, as a `true` flag does.
- `Date.now()`: the current time is the parameter `now`.
- Unicode lowercasing: `ToLower` folds only 'A'..'Z'. Wallet addresses are hexadecimal, so this is enough for them.
- How the database matches conditions, including whether `id` and `address` in a query are resolved to `_id`. `LookupByIdIsCaseInsensitive` states equality of the normalised `_id` condition with the stored `_id`, not a database match.
- The transform's first argument (the source document) is unused by the code, so `Transform` does not take it.
- `CanRequestFaucetTokens`: the getter compares the timestamp with `null` strictly. When the path is `undefined` (for example in a document loaded with a projection that excludes it, where no default is applied), the getter calls `getTime()` on `undefined` and throws. The model's timestamp is either null or a time, so this throwing case is not modelled.
- `CreateUser`: construction and the `required` check, which the mapper runs when saving, are one function here. An empty string counts as missing, as it does for a required string path. Casting of non-string addresses is not modelled.
- `ToObjectView`: the `address` alias and the `id` virtual appear in the document view because both options set `virtuals: true` (`src/models/user.js:43`, `61`). The view lists only the paths that this file declares.
