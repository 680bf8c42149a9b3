/**
 The restaurant detail page's cart state as a state machine: the open
 restaurant, its in-memory cart, and session storage. Every add and remove
 computes the new cart and writes it under the open restaurant's key.
 */
module CartSession {
  import opened ShoppingCart
  import opened SessionStore
  import CartLaws

  datatype Session = Session(restaurantId: string, cart: Cart, store: Store)

  /** A user action on the page. */
  datatype Event = Add(item: MenuItem) | Remove(line: CartLine)

  /** Storage holds exactly the in-memory cart under the open restaurant's key. */
  predicate Persisted(s: Session) {
    StorageKey(s.restaurantId) in s.store && s.store[StorageKey(s.restaurantId)] == s.cart
  }

  /** Reopening the page from storage would show the in-memory cart. */
  predicate InSync(s: Session) {
    Load(s.store, s.restaurantId) == s.cart
  }

  /** What every reachable state keeps: a well-formed cart that storage mirrors. */
  predicate Invariant(s: Session) {
    WellFormed(s.cart) && InSync(s)
  }

  /** Every cart in storage is well formed. */
  predicate StoreWellFormed(store: Store) {
    forall k :: k in store ==> WellFormed(store[k])
  }

  /** Opening a restaurant's page seeds the cart from storage. */
  function Open(store: Store, restaurantId: string): (s: Session)
    ensures s.restaurantId == restaurantId && s.store == store
    ensures InSync(s)
    ensures StorageKey(restaurantId) in store ==> Persisted(s)
    ensures StorageKey(restaurantId) !in store ==> s.cart == []
  {
    Session(restaurantId, Load(store, restaurantId), store)
  }

  /** `addToCart`: the new cart becomes the state and is written back. */
  function AddItem(s: Session, item: MenuItem): (t: Session)
    ensures t.restaurantId == s.restaurantId
    ensures t.cart == AddToCart(s.cart, item)
    ensures Persisted(t)
    ensures SameElsewhere(s.store, t.store, StorageKey(s.restaurantId))
  {
    var cart := AddToCart(s.cart, item);
    Session(s.restaurantId, cart, Save(s.store, s.restaurantId, cart))
  }

  /** `removeFromCart`: the filtered cart becomes the state and is written back,
      even when nothing was removed. */
  function RemoveItem(s: Session, line: CartLine): (t: Session)
    ensures t.restaurantId == s.restaurantId
    ensures t.cart == RemoveFromCart(s.cart, line)
    ensures Persisted(t)
    ensures SameElsewhere(s.store, t.store, StorageKey(s.restaurantId))
  {
    var cart := RemoveFromCart(s.cart, line);
    Session(s.restaurantId, cart, Save(s.store, s.restaurantId, cart))
  }

  function Step(s: Session, e: Event): (t: Session)
    ensures t.restaurantId == s.restaurantId
    ensures Persisted(t)
    ensures SameElsewhere(s.store, t.store, StorageKey(s.restaurantId))
  {
    match e
    case Add(item) => AddItem(s, item)
    case Remove(line) => RemoveItem(s, line)
  }

  /** A sequence of user actions, applied in order. After at least one action the
      stored copy is the in-memory cart; no other key ever changes. */
  function Run(s: Session, events: seq<Event>): (t: Session)
    ensures t.restaurantId == s.restaurantId
    ensures SameElsewhere(s.store, t.store, StorageKey(s.restaurantId))
    ensures |events| > 0 ==> Persisted(t)
    ensures |events| == 0 ==> t == s
    decreases |events|
  {
    if |events| == 0 then s else Run(Step(s, events[0]), events[1..])
  }

  /** Reopening from storage recovers a well-formed cart. */
  lemma OpenInvariant(store: Store, restaurantId: string)
    requires StoreWellFormed(store)
    ensures Invariant(Open(store, restaurantId))
  {
  }

  /** One action keeps the cart well formed, storage in sync, and every stored
      cart well formed. */
  lemma StepPreservesInvariant(s: Session, e: Event)
    requires Invariant(s) && StoreWellFormed(s.store)
    ensures Invariant(Step(s, e)) && StoreWellFormed(Step(s, e).store)
  {
    match e
    case Add(item) => CartLaws.AddPreservesWellFormed(s.cart, item);
    case Remove(line) => CartLaws.RemovePreservesWellFormed(s.cart, line.id);
  }

  /** Any run of actions keeps the invariant. */
  lemma {:induction false} RunPreservesInvariant(s: Session, events: seq<Event>)
    requires Invariant(s) && StoreWellFormed(s.store)
    ensures Invariant(Run(s, events)) && StoreWellFormed(Run(s, events).store)
    decreases |events|
  {
    if |events| > 0 {
      StepPreservesInvariant(s, events[0]);
      RunPreservesInvariant(Step(s, events[0]), events[1..]);
    }
  }

  /** Starting from any well-formed storage, every reachable state has a
      well-formed cart that a page reload would restore exactly. */
  lemma ReachableStatesKeepInvariant(store: Store, restaurantId: string, events: seq<Event>)
    requires StoreWellFormed(store)
    ensures Invariant(Run(Open(store, restaurantId), events))
    ensures Open(Run(Open(store, restaurantId), events).store, restaurantId).cart
            == Run(Open(store, restaurantId), events).cart
  {
    OpenInvariant(store, restaurantId);
    RunPreservesInvariant(Open(store, restaurantId), events);
  }

  /** Whatever is done in restaurant `a`'s page, restaurant `b`'s page opens with
      the cart it would have had anyway. */
  lemma SwitchRestaurantIsolated(store: Store, a: string, b: string, events: seq<Event>)
    requires a != b
    ensures Open(Run(Open(store, a), events).store, b).cart == Open(store, b).cart
  {
    StorageKeyInjective(a, b);
    var t := Run(Open(store, a), events);
    var key := StorageKey(b);
    assert key in store <==> key in store.Keys - {StorageKey(a)};
    assert key in t.store <==> key in t.store.Keys - {StorageKey(a)};
    if key in store {
      assert t.store[key] == store[key];
    }
  }

  /** Removing a line the cart does not hold leaves the cart unchanged, yet
      storage is still written. */
  lemma RemoveAbsentStillSaves(s: Session, line: CartLine)
    requires !HasLine(s.cart, line.id)
    ensures RemoveItem(s, line).cart == s.cart
    ensures StorageKey(s.restaurantId) in RemoveItem(s, line).store
  {
    CartLaws.RemoveAbsent(s.cart, line.id);
  }
}
