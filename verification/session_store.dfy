/**
 The session-storage side of the cart: each restaurant's cart is kept under
 the key `cartItems:<restaurantId>`. JSON encoding is taken as lossless, so
 a stored value is the cart itself.
 */
module SessionStore {
  import opened ShoppingCart

  /** Session storage as far as the cart uses it. */
  type Store = map<string, Cart>

  const CartKeyPrefix: string := "cartItems:"

  /** `cartItems:${restaurantId}`. */
  function StorageKey(restaurantId: string): (key: string)
    ensures |key| == |CartKeyPrefix| + |restaurantId|
    ensures key[..|CartKeyPrefix|] == CartKeyPrefix
    ensures key[|CartKeyPrefix|..] == restaurantId
  {
    CartKeyPrefix + restaurantId
  }

  /** Distinct restaurants never share a storage key. */
  lemma StorageKeyInjective(a: string, b: string)
    ensures StorageKey(a) == StorageKey(b) <==> a == b
  {
    if StorageKey(a) == StorageKey(b) {
      assert a == StorageKey(a)[|CartKeyPrefix|..];
    }
  }

  /** The `useState` initialiser: the stored cart, or the empty cart when the key
      is absent. */
  function Load(store: Store, restaurantId: string): (cart: Cart)
    ensures StorageKey(restaurantId) in store ==> cart == store[StorageKey(restaurantId)]
    ensures StorageKey(restaurantId) !in store ==> cart == []
  {
    var key := StorageKey(restaurantId);
    if key in store then store[key] else []
  }

  /** `sessionStorage.setItem(`cartItems:${restaurantId}`, ...)`: the whole
      cart replaces whatever was stored under that key. */
  function Save(store: Store, restaurantId: string, cart: Cart): (store': Store)
    ensures store'.Keys == store.Keys + {StorageKey(restaurantId)}
    ensures store'[StorageKey(restaurantId)] == cart
    ensures forall k :: k in store && k != StorageKey(restaurantId) ==> store'[k] == store[k]
  {
    store[StorageKey(restaurantId) := cart]
  }

  /** Every other key keeps its presence and its value. */
  predicate SameElsewhere(store: Store, store': Store, key: string) {
    && store.Keys - {key} == store'.Keys - {key}
    && (forall k :: k in store && k != key ==> k in store' && store'[k] == store[k])
  }

  /** A save followed by a load of the same restaurant gives back the saved cart. */
  lemma LoadAfterSave(store: Store, restaurantId: string, cart: Cart)
    ensures Load(Save(store, restaurantId, cart), restaurantId) == cart
  {
  }

  /** A save for one restaurant is invisible to every other restaurant's load. */
  lemma SaveIsolated(store: Store, a: string, b: string, cart: Cart)
    requires a != b
    ensures Load(Save(store, a, cart), b) == Load(store, b)
  {
    StorageKeyInjective(a, b);
  }

  /** A save writes its own key and no other. */
  lemma SaveTouchesOneKey(store: Store, restaurantId: string, cart: Cart)
    ensures SameElsewhere(store, Save(store, restaurantId, cart), StorageKey(restaurantId))
  {
  }

  /** Only the last of two saves for one restaurant is visible. */
  lemma SaveOverwrites(store: Store, restaurantId: string, c1: Cart, c2: Cart)
    ensures Save(Save(store, restaurantId, c1), restaurantId, c2) == Save(store, restaurantId, c2)
  {
  }
}
