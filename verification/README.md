# Restaurant cart model

A Dafny model of the per-restaurant shopping cart on the restaurant detail
page of the food-ordering frontend (`frontend/src/pages/RestaurantDetail.tsx`).
The page keeps a cart of lines `{_id, name, price, quantity}` in React state.
It seeds the cart from session storage under `cartItems:<restaurantId>`.
`addToCart` merges a repeat item into its line or appends a new line.
`removeFromCart` filters out every line of an item. Both write the new cart
back to storage. The checkout button is disabled while the cart has no lines.

Modules:

- `Wrappers`: the `Option` type.
- `ShoppingCart`: menu items, cart lines and the well-formedness invariant
  (unique `_id`, quantities at least one). It holds `Find`, `AddToCart`,
  `RemoveFromCart` and the checkout gate as pure functions.
- `CartLaws`: lemmas relating the operations to each other, to unit counts and
  to the invariant.
- `SessionStore`: the storage key format, load and save. Session storage is a
  `map<string, Cart>`; JSON encoding is taken as lossless.
- `CartSession`: the page state `(restaurantId, cart, store)` as a state
  machine. Each add or remove also writes storage. Lemmas cover runs of user
  actions, reloads and switching restaurants.
- `StaleClosure`: the cart computation of `addToCart`'s updater as written,
  without the storage write (see Findings).

Points where the code's behaviour is easy to misread, and what the model does:

- The load calls `JSON.parse` unguarded, so a stored value that does not
  parse makes it throw; the model does not cover that case.
- The page computes no total cost, delivery fee or checkout request:
  `onCheckout` only logs. Only the `disabled` gate is modelled.
- `addToCart` bumps every line with a matching `_id` (a `map`), not only the
  first one. `ShoppingCart.Bump` does the same. In a well-formed cart the two
  readings agree.
- `addToCart` tests whether `find` returns a line. `ShoppingCart.AddToCart`
  tests `HasLine` instead. The contract of `ShoppingCart.Find` shows the two
  tests are the same.

## Model

| member | source | states |
|---|---|---|
| ShoppingCart.Find | frontend/src/pages/RestaurantDetail.tsx:27-29 | Finds nothing exactly when no line has the id; otherwise returns the first line with that id |
| ShoppingCart.Bump | frontend/src/pages/RestaurantDetail.tsx:32-37 | Every line keeps its id, name and price; each line with the id gets exactly one more unit and every other line keeps its quantity |
| ShoppingCart.AddToCart | frontend/src/pages/RestaurantDetail.tsx:25-48 | Afterwards the item has a line. A present item has its lines bumped by one, with names and prices kept and other lines untouched. An absent item gets one line `{id, name, price, 1}` appended after the unchanged old cart |
| ShoppingCart.RemoveId | frontend/src/pages/RestaurantDetail.tsx:59-61 | A line survives exactly when it was in the cart and has a different id; no line with the id is left |
| ShoppingCart.RemoveFromCart | frontend/src/pages/RestaurantDetail.tsx:57-61 | Removes by the given line's `_id` only, whatever its quantity: survivors are exactly the lines with other ids |
| ShoppingCart.CheckoutDisabled | frontend/src/pages/RestaurantDetail.tsx:114 | The button is disabled exactly when the cart is the empty sequence |
| CartLaws.AddQuantity | frontend/src/pages/RestaurantDetail.tsx:27-48 | With unique ids, an add puts exactly one more unit of the item in the cart and leaves every other item's units unchanged |
| CartLaws.AddPreservesWellFormed | frontend/src/pages/RestaurantDetail.tsx:27-48 | An add keeps ids unique and every quantity at least 1 |
| CartLaws.AddKeepsOrder | frontend/src/pages/RestaurantDetail.tsx:38-48 | The id sequence is unchanged by a repeat add and extended at the end by a first add |
| CartLaws.RepeatAddKeepsCapturedValues | frontend/src/pages/RestaurantDetail.tsx:32-37 | A repeat add changes the matching line only by one more unit: name and price stay as first captured |
| CartLaws.AddTimesFresh | frontend/src/pages/RestaurantDetail.tsx:27-48 | Adding an absent item N times (N at least 1) gives the old cart plus one line with quantity N and the first add's name and price |
| CartLaws.AddTimesAt | frontend/src/pages/RestaurantDetail.tsx:32-37 | When exactly one line has the item, N more adds raise that line's quantity by N and change nothing else |
| CartLaws.AddTimesUnique | frontend/src/pages/RestaurantDetail.tsx:27-48 | Any number of adds of one item keeps ids unique |
| CartLaws.AddTimesQuantity | frontend/src/pages/RestaurantDetail.tsx:27-48 | With unique ids, N adds of one item raise that item's units by exactly N |
| CartLaws.RemoveAbsent | frontend/src/pages/RestaurantDetail.tsx:59-61 | Removing an id no line has leaves the cart unchanged |
| CartLaws.RemoveIdempotent | frontend/src/pages/RestaurantDetail.tsx:59-61 | Removing the same id twice is the same as removing it once |
| CartLaws.RemoveDistributes | frontend/src/pages/RestaurantDetail.tsx:59-61 | Removal distributes over concatenation, so the surviving lines keep their relative order |
| CartLaws.RemoveSplices | frontend/src/pages/RestaurantDetail.tsx:59-61 | With unique ids, removing line k's id gives exactly the cart with line k cut out |
| CartLaws.RemovePreservesWellFormed | frontend/src/pages/RestaurantDetail.tsx:59-61 | Removal keeps ids unique and quantities positive |
| CartLaws.RemoveQuantity | frontend/src/pages/RestaurantDetail.tsx:59-61 | Removal takes away all units of the removed item and none of any other item |
| CartLaws.RemoveCommutes | frontend/src/pages/RestaurantDetail.tsx:59-61 | Two removals give the same cart in either order |
| CartLaws.AddThenRemove | frontend/src/pages/RestaurantDetail.tsx:25-61 | Removing an item after adding it gives the same cart as removing it without the add |
| CartLaws.AddEnablesCheckout | frontend/src/pages/RestaurantDetail.tsx:114 | After any add the checkout button is enabled |
| CartLaws.RemoveDisablesCheckout | frontend/src/pages/RestaurantDetail.tsx:114 | After a removal the button is disabled exactly when every line had the removed id |
| CartLaws.CheckoutGateCountsUnits | frontend/src/pages/RestaurantDetail.tsx:114 | When quantities are positive, the button is disabled exactly when no units are ordered; the unit count is at least the line count |
| SessionStore.StorageKey | frontend/src/pages/RestaurantDetail.tsx:21 | The key is the prefix `cartItems:` followed by the restaurant id |
| SessionStore.StorageKeyInjective | frontend/src/pages/RestaurantDetail.tsx:21 | Two restaurants share a key exactly when they are the same restaurant |
| SessionStore.Load | frontend/src/pages/RestaurantDetail.tsx:20-23 | A missing key gives the empty cart; a present key gives exactly the stored cart |
| SessionStore.Save | frontend/src/pages/RestaurantDetail.tsx:49-52 | Afterwards the restaurant's key holds the whole new cart; other keys keep their values and no key goes away |
| SessionStore.LoadAfterSave | frontend/src/pages/RestaurantDetail.tsx:20-23 | Loading right after saving gives back the saved cart |
| SessionStore.SaveIsolated | frontend/src/pages/RestaurantDetail.tsx:49-52 | Saving restaurant a's cart does not change what loading restaurant b gives |
| SessionStore.SaveTouchesOneKey | frontend/src/pages/RestaurantDetail.tsx:62-65 | A save leaves every other key's presence and value as it was |
| SessionStore.SaveOverwrites | frontend/src/pages/RestaurantDetail.tsx:62-65 | A second save for one restaurant fully replaces the first |
| CartSession.Open | frontend/src/pages/RestaurantDetail.tsx:20-23 | A freshly opened page matches storage. Its cart is empty when nothing is stored; otherwise it is the stored cart |
| CartSession.AddItem | frontend/src/pages/RestaurantDetail.tsx:25-55 | The page's cart becomes `AddToCart` of the old one. Storage then holds it under this restaurant's key, and no other key changes |
| CartSession.RemoveItem | frontend/src/pages/RestaurantDetail.tsx:57-68 | The page's cart becomes `RemoveFromCart` of the old one. Storage then holds it under this restaurant's key, and no other key changes |
| CartSession.Step | frontend/src/pages/RestaurantDetail.tsx:25-68 | Any single user action leaves storage mirroring the cart and touches only this restaurant's key |
| CartSession.Run | frontend/src/pages/RestaurantDetail.tsx:25-68 | After any non-empty run of actions storage mirrors the cart; no other key changes; an empty run changes nothing |
| CartSession.OpenInvariant | frontend/src/pages/RestaurantDetail.tsx:20-23 | Opening from storage whose carts are all well formed gives a well-formed cart in sync with storage |
| CartSession.StepPreservesInvariant | frontend/src/pages/RestaurantDetail.tsx:25-68 | One action keeps the cart well formed, in sync with storage, and every stored cart well formed |
| CartSession.RunPreservesInvariant | frontend/src/pages/RestaurantDetail.tsx:25-68 | Any run of actions keeps that invariant |
| CartSession.ReachableStatesKeepInvariant | frontend/src/pages/RestaurantDetail.tsx:20-68 | Every state reached from well-formed storage has a well-formed cart that reopening the page restores exactly |
| CartSession.SwitchRestaurantIsolated | frontend/src/pages/RestaurantDetail.tsx:20-68 | Whatever is done on restaurant a's page, restaurant b's page then opens with the cart it would have had anyway |
| CartSession.RemoveAbsentStillSaves | frontend/src/pages/RestaurantDetail.tsx:57-68 | Removing a line the cart lacks leaves the cart unchanged but still writes storage |
| StaleClosure.AddToCartAsWritten | frontend/src/pages/RestaurantDetail.tsx:25-48 | Same as `AddToCart` when the rendered and pending carts agree. Otherwise the rendered cart decides: if it has the item, the pending cart's matching lines get one more unit and nothing else changes; if not, `{id, name, price, 1}` is appended after the unchanged pending cart |
| StaleClosure.StaleAddAgrees | frontend/src/pages/RestaurantDetail.tsx:25-48 | Whenever the rendered and pending carts agree on whether the item is present, the as-written add equals `AddToCart` on the pending cart |
| StaleClosure.StaleAddDuplicates | frontend/src/pages/RestaurantDetail.tsx:26-48 | For all carts: if the rendered cart lacks the item but the pending cart has it, the result has two lines with the same id |
| StaleClosure.StaleAddLost | frontend/src/pages/RestaurantDetail.tsx:26-48 | For all carts: if the rendered cart has the item but the pending cart does not, the result is the pending cart unchanged, so the add is lost |
| StaleClosure.QueuedAddsDuplicateLine | frontend/src/pages/RestaurantDetail.tsx:26-48 | For any cart lacking the item, two queued adds of it append two lines `{id, name, price, 1}` with the same id |
| StaleClosure.QueuedRemoveThenAddLosesAdd | frontend/src/pages/RestaurantDetail.tsx:26-61 | For any cart holding the item, a queued remove followed by an add of it leaves the cart without the item: the add is lost |
| StaleClosure.QueuedAddsStayUnique | frontend/src/pages/RestaurantDetail.tsx:26-48 | Starting from a well-formed cart, the cart after any sequence of corrected adds is still well formed |

## Left out

- JSON encoding: stored values are carts, not strings. `JSON.stringify` and `JSON.parse` are taken as lossless.
- Malformed stored data: `JSON.parse` on line 22 throws and the page does not recover, so this is not modelled.
- An empty stored string: it is falsy and would load as an empty cart. A stringified array is never empty, so only foreign writes produce it; not modelled.
- A missing route parameter: `restaurantId` then reads as the text `undefined` in the key. The model takes the restaurant id as a given string.
- Changing the route parameter without a remount: `restaurantId` is read from `useParams()` on every render (line 17), but the cart is seeded from storage only when the `useState` initializer runs on mount (lines 20-23). `Session.restaurantId` is fixed, and switching restaurants is modelled as opening a fresh page. If React reused the component for another restaurant, the old cart would stay in memory and the next add would save it under the new key; `CartSession.SwitchRestaurantIsolated` assumes this does not happen.
- Storage failures: `sessionStorage.getItem` and `setItem` can throw when storage is disabled or full. `SessionStore.Load` and `SessionStore.Save` are total and always succeed.
- The storage write after a stale add (lines 49-52): `StaleClosure` models only the updater's cart computation, so it does not show that a duplicate or lost line is also saved and comes back on reload.
- Number precision: quantities and prices are JavaScript numbers. The model uses unbounded integers, so precision loss above 2^53 is not modelled.
- React scheduling: the model applies updates one at a time with the rendered and pending carts equal. The only exception is `StaleClosure`.
- Rendering, restaurant fetching, the loading spinner, navigation and `onCheckout` (which only logs): UI and I/O with nothing to state.
- The user-profile query, image upload, restaurant management page and routing: other components, not part of the cart.
- Total cost, delivery fee and checkout request building: not present in the cart's code (order totals are computed in a component that is not part of this model).

## Findings

| source | as written | input that shows it | evidently intended | confidence | as-written member | corrected member |
|---|---|---|---|---|---|---|
| frontend/src/pages/RestaurantDetail.tsx:27 | The existence test reads `cartItems` from the render that created the handler, but the update maps or appends to `prevState` | Two `addToCart` calls for a new item queued before a re-render give two lines with the same `_id`. A queued remove followed by an add of the same item loses the add | Test `prevState`, the cart being updated, so `_id` stays unique | low: needs two updates queued in one batch; not executed | StaleClosure.AddToCartAsWritten | ShoppingCart.AddToCart |
