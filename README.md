# In-memory commerce store, modelled in Dafny

The server keeps two process-wide tables behind its query and mutation resolvers (`index.js`):

- the user directory `users`, username to user record (`username`, `password`, `token`,
  `isLoggedIn`, `purchases`, `id`);
- the catalog `itemList`, item id to `name` and `quantity`, seeded with five items.

The queries `userProfile` (look up a user by session token) and `items` (list the catalog) only
read. The mutations `register`, `login`, `logout` and `purchase` write the tables in place.

The model follows that shape:

- `results.dfy`, module `Results`: `Option` (the resolvers' `null`) and `Result` (a value, or the
  error a resolver raises).
- `catalog.dfy`, module `Catalog`: items, orders, the seed catalog, the listing that `items`
  returns, and what applying an order does to the catalog (`ApplyOrder`, `Ordered`,
  `FirstUnlisted`, `Ids`).
- `users.dfy`, module `Users`: user and purchase records, the random id range, and the token
  predicates `HoldsToken` and `TokensUnique` with the lemmas that the mutations keep tokens unique.
- `resolvers.dfy`, module `Resolvers`: class `Store` with the two tables as `map` fields and one
  method per resolver. `Store.Items` is the `items` query and returns `Listing(itemList)`.
  `Store.Valid` is the invariant every mutation keeps: each record sits under its own username,
  a user is logged in exactly when it holds a token, and the catalog keeps the seed's keys.
- `scenarios.dfy`, module `Scenarios`: client code that registers, logs in, buys and logs out,
  checked against the resolvers' contracts alone.

Inputs that come from outside the store are parameters. `freshToken` is the string the token
generator returns. `id` and `purchaseId` are the values of the random-number helper, typed
`RandomId` (0 to 100000, from rounding a random fraction times 100000).

When a resolver dereferences a lookup that found nothing, it throws. The GraphQL layer turns that
into an error response, and the process keeps serving. Every change made before the throw stays
made. The model returns `Failure(UnknownToken)` or `Failure(UnknownItem(id))` and keeps those
partial changes:

- `logout` with an unknown token fails before it changes anything.
- `purchase` applies the order's lines in turn. At the first line whose item is missing it fails;
  the lines before it stay applied.
- `purchase` with an unknown token fails after the whole order has been applied to the catalog.
  No purchase record is written.

Two behaviours of the code are easy to misread:

- `items` lists the catalog in ascending numeric id order: 12345, 35653, 59272, 67890, 74523. Item
  ids are integer-like object keys, and a JavaScript object enumerates those in ascending numeric
  order, not in insertion order (`Catalog.AscendingKeys`, `Catalog.SeedListing`).
- An unknown token or item is a failed request whose earlier writes persist, as above. It is not
  a fatal stop.

## Model

| member | source | states |
|---|---|---|
| `Catalog.SeedKeys` | index.js:52-73 | the seed catalog has exactly the five keys 12345, 35653, 59272, 67890, 74523 |
| `Catalog.SeedKeysAscending` | index.js:52-73 | the seed catalog's keys enumerate as 12345, 35653, 59272, 67890, 74523, not in the order the literal writes them |
| `Catalog.SeedListing` | index.js:52-91 | before any purchase, `items` yields Apple 100, Chicken Breast 25, Cheese 15, Grapes 75, Bread 32, in ascending id order |
| `Catalog.AscendingKeys` | index.js:82 | the catalog's keys are enumerated in strictly ascending order, one entry per key and only keys of the catalog |
| `Catalog.AscendingKeysCover` | index.js:82 | every key of the catalog occurs in its enumeration |
| `Catalog.Listing` | index.js:81-91 | `items` has one entry per catalog key, each carrying that key's current name and quantity, ids strictly ascending |
| `Catalog.ListingHasKey` | index.js:81-91 | every catalog key appears in the listing with its name and quantity |
| `Catalog.Decrement` | index.js:131-133 | one line lowers its item's quantity by the line's quantity, keeps the name, and leaves every other item and the key set unchanged |
| `Catalog.Ordered` | index.js:129-135 | the total ordered of an item is zero when no line names it |
| `Catalog.ApplyOrder` | index.js:129-135 | applying an order's lines never adds or removes a catalog key |
| `Catalog.ApplyOrderQuantity` | index.js:129-135 | after an order, each item's quantity is its old quantity minus the total ordered of it, with no lower bound, and its name is unchanged |
| `Catalog.UnorderedItemUnchanged` | index.js:129-135 | an item no line names is left exactly as it was |
| `Catalog.Ids` | index.js:128-134 | the collected ids are the order's item ids, one per line, in input order |
| `Catalog.FirstUnlisted` | index.js:132 | the index of the first line whose item is missing from the catalog, or the order's length when every item is present |
| `Catalog.FirstUnlistedAt` | index.js:129-133 | if the lines before index i name catalog items and line i does not (or i is the end), the loop stops at i |
| `Users.FreshTokenKeepsUnique` | index.js:115-122 | storing a record whose token nobody holds keeps tokens unique, and the new token is then held |
| `Users.SignOutRevokesToken` | index.js:107-109 | clearing a user's token keeps tokens unique, and afterwards nobody holds the cleared token |
| `Users.SameTokenKeepsUnique` | index.js:136-140 | replacing a record by one with the same token keeps tokens unique and the same tokens held |
| `Resolvers.Store.constructor` | index.js:51-73 | the store starts with no users and the seed catalog |
| `Resolvers.Store.FindHolder` | index.js:79 | yields a username whose record holds the token, and nothing exactly when no user holds it |
| `Resolvers.Store.Items` | index.js:81-91 | returns `Listing(itemList)`: one entry per catalog key with its current name and quantity, ids strictly ascending; only reads the store |
| `Resolvers.Store.UserProfile` | index.js:77-80 | returns a stored, logged-in user whose token equals the argument, or nothing exactly when no user holds it; with unique tokens it is the holder; reads only |
| `Resolvers.Store.Login` | index.js:94-104 | succeeds exactly when the user exists and the stored password equals the given one; then the record is logged in with the fresh token, password, id and purchases kept, and every other record and the catalog unchanged; on failure nothing changes |
| `Resolvers.Store.Logout` | index.js:105-111 | succeeds with true exactly when some user holds the token; that user is logged out with its token cleared and nothing else changes; afterwards, with unique tokens, nobody holds the token; otherwise it fails and nothing changes |
| `Resolvers.Store.Register` | index.js:112-124 | stores under the username a logged-in record with the given password, the fresh token, no purchases and the random id, replacing any earlier record; other users and the catalog unchanged |
| `Resolvers.Store.ApplyLines` | index.js:129-135 | the loop applies the order's lines up to the first unknown item, stopping there, and collects their ids in order |
| `Resolvers.Store.Purchase` | index.js:125-142 | an unknown item fails after the earlier lines are applied; otherwise the whole order is applied; with a known token exactly one purchase carrying the order's ids in input order is appended to the holder's list and it returns true; with an unknown token it fails and no user changes |
| `Scenarios.TenApples` | index.js:129-135 | ordering ten apples from the seed catalog leaves Apple at 90 |
| `Scenarios.FiveGrapes` | index.js:81-91 | after five grapes are ordered from the seed catalog, the listing shows Grapes at 70 |

## Left out

- Server start-up, the network listener and the start-up log line: I/O outside the store.
- The GraphQL schema text: it only fixed the field types used here. Filtering of returned fields
  (the schema does not expose `password`) and the schema's non-null `token` on a logged-out user
  are left to the GraphQL layer.
- The token generator and `Math.random`: foreign code and randomness. Their outputs are method
  parameters. Whether a generated token differs from every token in use is the generator's
  business, so uniqueness of tokens is a hypothesis of the contracts, not an invariant.
- Resolvers.Store.FindHolder: when several users hold the same token, the source takes the first
  in the object's key enumeration order; the model says only that it yields some holder. The same
  holds for `UserProfile`, `Logout` and `Purchase`, which use it. With unique tokens the holder is
  determined.
- The username `__proto__`: assigning to it replaces the `users` object's prototype in JavaScript
  instead of storing a record; the model treats every username, that one included, as an
  ordinary key.
- Item ids arrive as GraphQL ID strings; the model uses their numeric value. A non-canonical
  spelling such as `012345` misses the catalog in the source and cannot be written in the model.
- Non-numeric item ids are not modelled. An id naming an inherited member, such as `constructor`,
  `toString` or `__proto__`, does not make `purchase` fail in the source: the lookup finds a
  built-in object whose `quantity` is undefined, NaN is written onto it (onto `Object.prototype`
  for `__proto__`), the id is collected, and with a known token the purchase is recorded and
  `purchase` returns true. Every id the model can express is either a catalog key or fails.
- Arithmetic is on unbounded integers. JavaScript doubles lose precision above 2^53, and GraphQL's
  32-bit `Int` fails to serialise larger quantities; neither is modelled.
- Records are values: the source returns the stored object itself, so later writes would show
  through a kept reference. Callers only serialise the result, so nothing observable depends on it.
- A `null` list of order items behaves like an empty list (the loop does nothing); the model has
  only lists.
- Concurrency: requests are assumed to run one at a time, as on the single-threaded event loop.
