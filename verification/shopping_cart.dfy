/**
 The per-restaurant shopping cart of the restaurant detail page
 (frontend/src/pages/RestaurantDetail.tsx): cart lines, `addToCart`,
 `removeFromCart` and the checkout gate, as pure functions over an
 immutable sequence of lines.
 */
module ShoppingCart {
  import opened Wrappers

  /** A menu entry as the restaurant offers it; only the fields the cart copies. */
  datatype MenuItem = MenuItem(id: string, name: string, price: int)

  /** One cart line: the item's `_id`, the name and price captured when it was
      first added, and how many units are ordered. */
  datatype CartLine = CartLine(id: string, name: string, price: int, quantity: int)

  /** A cart is ordered by first addition. */
  type Cart = seq<CartLine>

  /** The line `addToCart` appends for an item not yet in the cart. */
  function NewLine(item: MenuItem): (line: CartLine) {
    CartLine(item.id, item.name, item.price, 1)
  }

  /** Two lines describe the same item with the same captured name and price. */
  predicate SameItem(a: CartLine, b: CartLine) {
    a.id == b.id && a.name == b.name && a.price == b.price
  }

  predicate HasLine(cart: Cart, id: string) {
    exists i :: 0 <= i < |cart| && cart[i].id == id
  }

  /** At most one line per item identifier. */
  predicate UniqueIds(cart: Cart) {
    forall i, j :: 0 <= i < j < |cart| ==> cart[i].id != cart[j].id
  }

  predicate PositiveQuantities(cart: Cart) {
    forall i :: 0 <= i < |cart| ==> cart[i].quantity >= 1
  }

  /** The invariant every cart built by adds and removes keeps. */
  predicate WellFormed(cart: Cart) {
    UniqueIds(cart) && PositiveQuantities(cart)
  }

  /** The item identifiers in cart order. */
  function Ids(cart: Cart): (ids: seq<string>)
    ensures |ids| == |cart|
    ensures forall i :: 0 <= i < |cart| ==> ids[i] == cart[i].id
  {
    seq(|cart|, i requires 0 <= i < |cart| => cart[i].id)
  }

  /** Units of item `id` in the cart, summed over every line carrying it. */
  function QuantityOf(cart: Cart, id: string): (n: int) {
    if |cart| == 0 then 0
    else (if cart[0].id == id then cart[0].quantity else 0) + QuantityOf(cart[1..], id)
  }

  /** Units in the cart, summed over all lines. */
  function TotalQuantity(cart: Cart): (n: int) {
    if |cart| == 0 then 0 else cart[0].quantity + TotalQuantity(cart[1..])
  }

  /** Position of the first line carrying `id`, or `|cart|` when there is none. */
  function FirstIndex(cart: Cart, id: string): (k: nat)
    ensures k <= |cart|
    ensures k < |cart| ==> cart[k].id == id
    ensures forall j :: 0 <= j < k ==> cart[j].id != id
  {
    if |cart| == 0 then 0
    else if cart[0].id == id then 0
    else 1 + FirstIndex(cart[1..], id)
  }

  /** `cartItems.find(item => item._id === id)`: the first line with that
      identifier, or nothing. */
  function Find(cart: Cart, id: string): (r: Option<CartLine>)
    ensures r.None? <==> !HasLine(cart, id)
    ensures r.Some? ==> r.value.id == id && r.value in cart
    ensures r.Some? ==> exists k :: 0 <= k < |cart| && cart[k] == r.value
                                    && forall j :: 0 <= j < k ==> cart[j].id != id
  {
    var k := FirstIndex(cart, id);
    if k < |cart| then Some(cart[k]) else None
  }

  /** The `prevState.map(...)` branch of `addToCart`: every line carrying `id`
      gets one more unit; nothing else about any line changes. */
  function Bump(cart: Cart, id: string): (r: Cart)
    ensures |r| == |cart|
    ensures forall i :: 0 <= i < |cart| ==> SameItem(r[i], cart[i])
    ensures forall i :: 0 <= i < |cart| ==>
              r[i].quantity == cart[i].quantity + (if cart[i].id == id then 1 else 0)
  {
    seq(|cart|, i requires 0 <= i < |cart| =>
          if cart[i].id == id then cart[i].(quantity := cart[i].quantity + 1) else cart[i])
  }

  /** `addToCart(menuItem)`: merge into the existing line, or append a new one.
      The test is `HasLine`, which `Find`'s contract shows is exactly when
      `find` returns a line. */
  function AddToCart(cart: Cart, item: MenuItem): (r: Cart)
    ensures HasLine(r, item.id)
    ensures HasLine(cart, item.id) ==>
              |r| == |cart|
              && (forall i :: 0 <= i < |cart| ==> SameItem(r[i], cart[i]))
              && (forall i :: 0 <= i < |cart| && cart[i].id != item.id ==> r[i] == cart[i])
              && (forall i :: 0 <= i < |cart| && cart[i].id == item.id ==>
                    r[i].quantity == cart[i].quantity + 1)
    ensures !HasLine(cart, item.id) ==>
              |r| == |cart| + 1
              && (forall i :: 0 <= i < |cart| ==> r[i] == cart[i])
              && r[|cart|] == CartLine(item.id, item.name, item.price, 1)
  {
    if HasLine(cart, item.id) then Bump(cart, item.id)
    else
      var r := cart + [NewLine(item)];
      assert r[|cart|].id == item.id;
      r
  }

  /** The `prevState.filter(...)` of `removeFromCart`: drop every line carrying `id`. */
  function RemoveId(cart: Cart, id: string): (r: Cart)
    ensures forall l :: l in r <==> l in cart && l.id != id
    ensures !HasLine(r, id)
    ensures |r| <= |cart|
  {
    if |cart| == 0 then []
    else if cart[0].id == id then RemoveId(cart[1..], id)
    else [cart[0]] + RemoveId(cart[1..], id)
  }

  /** `removeFromCart(cartItem)`: the whole line goes, whatever its quantity. */
  function RemoveFromCart(cart: Cart, target: CartLine): (r: Cart)
    ensures forall l :: l in r <==> l in cart && l.id != target.id
    ensures !HasLine(r, target.id)
  {
    RemoveId(cart, target.id)
  }

  /** The checkout button's `disabled` flag: no lines at all. */
  function CheckoutDisabled(cart: Cart): (disabled: bool)
    ensures disabled <==> cart == []
  {
    |cart| == 0
  }

  /** `addToCart` applied `n` times with the same item. */
  function AddTimes(cart: Cart, item: MenuItem, n: nat): (r: Cart)
    decreases n
  {
    if n == 0 then cart else AddTimes(AddToCart(cart, item), item, n - 1)
  }
}
