/**
 `addToCart` as written: the existence test reads `cartItems`, the cart of
 the render that created the handler, while the update is applied to
 `prevState`, the cart React hands the updater. The two differ when two
 updates are queued before a re-render.
 */
module StaleClosure {
  import opened ShoppingCart
  import CartLaws

  /** The updater of `addToCart` with the rendered cart and the pending cart kept apart. */
  function AddToCartAsWritten(rendered: Cart, pending: Cart, item: MenuItem): (r: Cart)
    ensures rendered == pending ==> r == AddToCart(pending, item)
    ensures HasLine(rendered, item.id) ==>
              |r| == |pending|
              && (forall i :: 0 <= i < |pending| ==> SameItem(r[i], pending[i]))
              && (forall i :: 0 <= i < |pending| && pending[i].id != item.id ==> r[i] == pending[i])
              && (forall i :: 0 <= i < |pending| && pending[i].id == item.id ==>
                    r[i].quantity == pending[i].quantity + 1)
    ensures !HasLine(rendered, item.id) ==>
              |r| == |pending| + 1
              && (forall i :: 0 <= i < |pending| ==> r[i] == pending[i])
              && r[|pending|] == CartLine(item.id, item.name, item.price, 1)
  {
    if Find(rendered, item.id).Some? then Bump(pending, item.id)
    else pending + [NewLine(item)]
  }

  /** The as-written add agrees with `ShoppingCart.AddToCart` on the pending cart
      whenever the rendered cart answers the existence test the same way. */
  lemma StaleAddAgrees(rendered: Cart, pending: Cart, item: MenuItem)
    requires HasLine(rendered, item.id) == HasLine(pending, item.id)
    ensures AddToCartAsWritten(rendered, pending, item) == AddToCart(pending, item)
  {
  }

  /** When the rendered cart lacks the item but the pending cart already has it,
      the add appends a second line with the same identifier. */
  lemma StaleAddDuplicates(rendered: Cart, pending: Cart, item: MenuItem)
    requires !HasLine(rendered, item.id) && HasLine(pending, item.id)
    ensures !UniqueIds(AddToCartAsWritten(rendered, pending, item))
  {
  }

  /** When the rendered cart has the item but the pending cart no longer does,
      the add changes nothing: the unit is lost. */
  lemma StaleAddLost(rendered: Cart, pending: Cart, item: MenuItem)
    requires HasLine(rendered, item.id) && !HasLine(pending, item.id)
    ensures AddToCartAsWritten(rendered, pending, item) == pending
  {
  }

  /** Two adds of an item the cart lacks, queued in one batch: both handlers saw
      the same rendered cart, so the second appends a duplicate line. */
  lemma QueuedAddsDuplicateLine(cart: Cart, item: MenuItem)
    requires !HasLine(cart, item.id)
    ensures var first := AddToCartAsWritten(cart, cart, item);
            var second := AddToCartAsWritten(cart, first, item);
            second == cart + [NewLine(item), NewLine(item)] && !UniqueIds(second)
  {
  }

  /** A remove and an add of the same item queued in one batch: the add's test
      saw the line, its update finds none to bump, and the add is lost. */
  lemma QueuedRemoveThenAddLosesAdd(rendered: Cart, item: MenuItem)
    requires HasLine(rendered, item.id)
    ensures AddToCartAsWritten(rendered, RemoveId(rendered, item.id), item)
            == RemoveId(rendered, item.id)
  {
  }

  /** Deciding on the pending cart instead, as `ShoppingCart.AddToCart` does,
      keeps identifiers unique for every interleaving of queued adds. */
  lemma {:induction false} QueuedAddsStayUnique(cart: Cart, items: seq<MenuItem>)
    requires WellFormed(cart)
    ensures WellFormed(AddAll(cart, items))
    decreases |items|
  {
    if |items| > 0 {
      CartLaws.AddPreservesWellFormed(cart, items[0]);
      QueuedAddsStayUnique(AddToCart(cart, items[0]), items[1..]);
    }
  }

  /** Adds applied one after another, each to the cart the previous one produced. */
  function AddAll(cart: Cart, items: seq<MenuItem>): (r: Cart)
    decreases |items|
  {
    if |items| == 0 then cart else AddAll(AddToCart(cart, items[0]), items[1..])
  }
}
