/**
 Laws of the cart operations: the invariants `addToCart` and
 `removeFromCart` keep, how they move quantities, that insertion order
 survives both, and how the checkout gate follows the cart's contents.
 */
module CartLaws {
  import opened ShoppingCart

  /** Line `k` is the one line carrying `id`. */
  predicate OnlyLine(cart: Cart, k: nat, id: string) {
    k < |cart| && cart[k].id == id
    && forall i :: 0 <= i < |cart| && i != k ==> cart[i].id != id
  }

  // ---------------------------------------------------------------------------
  // Quantities

  lemma {:induction false} QuantityOfAppend(a: Cart, b: Cart, id: string)
    ensures QuantityOf(a + b, id) == QuantityOf(a, id) + QuantityOf(b, id)
  {
    if |a| > 0 {
      assert (a + b)[1..] == a[1..] + b;
      QuantityOfAppend(a[1..], b, id);
    } else {
      assert a + b == b;
    }
  }

  lemma {:induction false} QuantityOfAbsent(cart: Cart, id: string)
    requires !HasLine(cart, id)
    ensures QuantityOf(cart, id) == 0
  {
    if |cart| > 0 {
      assert !HasLine(cart[1..], id) by {
        forall i | 0 <= i < |cart[1..]| ensures cart[1..][i].id != id {
          assert cart[1..][i] == cart[i + 1];
        }
      }
      QuantityOfAbsent(cart[1..], id);
    }
  }

  /** The units of an item carried by one line only are that line's quantity. */
  lemma {:induction false} QuantityOfOnly(cart: Cart, k: nat, id: string)
    requires OnlyLine(cart, k, id)
    ensures QuantityOf(cart, id) == cart[k].quantity
  {
    var rest := cart[1..];
    if k == 0 {
      assert !HasLine(rest, id) by {
        forall i | 0 <= i < |rest| ensures rest[i].id != id {
          assert rest[i] == cart[i + 1];
        }
      }
      QuantityOfAbsent(rest, id);
    } else {
      assert OnlyLine(rest, k - 1, id) by {
        forall i | 0 <= i < |rest| && i != k - 1 ensures rest[i].id != id {
          assert rest[i] == cart[i + 1];
        }
      }
      QuantityOfOnly(rest, k - 1, id);
    }
  }

  /** Replacing line `k` swaps its units for those of the new line. */
  lemma {:induction false} QuantityOfUpdate(cart: Cart, k: nat, line: CartLine, x: string)
    requires k < |cart|
    ensures QuantityOf(cart[k := line], x)
            == QuantityOf(cart, x)
               - (if cart[k].id == x then cart[k].quantity else 0)
               + (if line.id == x then line.quantity else 0)
  {
    if k > 0 {
      assert cart[k := line][1..] == cart[1..][k - 1 := line];
      QuantityOfUpdate(cart[1..], k - 1, line, x);
    } else {
      assert cart[k := line][1..] == cart[1..];
    }
  }

  /** Adding an item puts exactly one more unit of it in the cart and leaves every
      other item's units alone. */
  lemma AddQuantity(cart: Cart, item: MenuItem, x: string)
    requires UniqueIds(cart)
    ensures QuantityOf(AddToCart(cart, item), x)
            == QuantityOf(cart, x) + (if x == item.id then 1 else 0)
  {
    if HasLine(cart, item.id) {
      var k :| 0 <= k < |cart| && cart[k].id == item.id;
      assert OnlyLine(cart, k, item.id);
      BumpAt(cart, item, k);
      QuantityOfUpdate(cart, k, cart[k].(quantity := cart[k].quantity + 1), x);
    } else {
      QuantityOfAppend(cart, [NewLine(item)], x);
      assert cart + [NewLine(item)] == AddToCart(cart, item);
    }
  }

  // ---------------------------------------------------------------------------
  // addToCart

  /** `addToCart` keeps identifiers unique and every quantity at least one. */
  lemma AddPreservesWellFormed(cart: Cart, item: MenuItem)
    requires WellFormed(cart)
    ensures WellFormed(AddToCart(cart, item))
  {
  }

  /** First-add order survives: a repeat add keeps the identifier sequence, a new
      item is appended to it. */
  lemma AddKeepsOrder(cart: Cart, item: MenuItem)
    ensures Ids(AddToCart(cart, item))
            == if HasLine(cart, item.id) then Ids(cart) else Ids(cart) + [item.id]
  {
  }

  /** A repeat add never refreshes the captured name or price. */
  lemma RepeatAddKeepsCapturedValues(cart: Cart, item: MenuItem, k: nat)
    requires k < |cart| && cart[k].id == item.id
    ensures AddToCart(cart, item)[k]
            == cart[k].(quantity := cart[k].quantity + 1)
  {
  }

  /** Re-adding the item of the one line carrying it bumps just that line. */
  lemma BumpAt(cart: Cart, item: MenuItem, k: nat)
    requires OnlyLine(cart, k, item.id)
    ensures AddToCart(cart, item) == cart[k := cart[k].(quantity := cart[k].quantity + 1)]
  {
  }

  /** `m` more adds of the item of the one line carrying it raise that line's
      quantity by `m` and change nothing else. */
  lemma {:induction false} AddTimesAt(cart: Cart, item: MenuItem, k: nat, m: nat)
    requires OnlyLine(cart, k, item.id)
    ensures AddTimes(cart, item, m) == cart[k := cart[k].(quantity := cart[k].quantity + m)]
    decreases m
  {
    if m == 0 {
      assert cart[k].(quantity := cart[k].quantity + m) == cart[k];
    } else {
      BumpAt(cart, item, k);
      var next := AddToCart(cart, item);
      assert OnlyLine(next, k, item.id);
      AddTimesAt(next, item, k, m - 1);
    }
  }

  /** Adding an item the cart lacks `n` times yields one line at the end with
      quantity `n` and the first add's name and price. */
  lemma AddTimesFresh(cart: Cart, item: MenuItem, n: nat)
    requires !HasLine(cart, item.id) && n >= 1
    ensures AddTimes(cart, item, n) == cart + [CartLine(item.id, item.name, item.price, n)]
  {
    var first := AddToCart(cart, item);
    assert first == cart + [NewLine(item)];
    assert OnlyLine(first, |cart|, item.id);
    AddTimesAt(first, item, |cart|, n - 1);
  }

  /** However often an item is added, identifiers stay unique. */
  lemma {:induction false} AddTimesUnique(cart: Cart, item: MenuItem, n: nat)
    requires UniqueIds(cart)
    ensures UniqueIds(AddTimes(cart, item, n))
    decreases n
  {
    if n > 0 {
      AddUniqueIds(cart, item);
      AddTimesUnique(AddToCart(cart, item), item, n - 1);
    }
  }

  /** However often an item is added, its units grow by exactly one per add. */
  lemma AddTimesQuantity(cart: Cart, item: MenuItem, n: nat)
    requires UniqueIds(cart)
    ensures QuantityOf(AddTimes(cart, item, n), item.id) == QuantityOf(cart, item.id) + n
  {
    var id := item.id;
    if n == 0 {
    } else if !HasLine(cart, id) {
      var last := CartLine(id, item.name, item.price, n);
      AddTimesFresh(cart, item, n);
      QuantityOfAppend(cart, [last], id);
      QuantityOfAbsent(cart, id);
      assert QuantityOf([last], id) == n;
    } else {
      var k :| 0 <= k < |cart| && cart[k].id == id;
      assert OnlyLine(cart, k, id);
      var after := cart[k := cart[k].(quantity := cart[k].quantity + n)];
      AddTimesAt(cart, item, k, n);
      QuantityOfOnly(cart, k, id);
      assert OnlyLine(after, k, id);
      QuantityOfOnly(after, k, id);
    }
  }

  lemma AddUniqueIds(cart: Cart, item: MenuItem)
    requires UniqueIds(cart)
    ensures UniqueIds(AddToCart(cart, item))
  {
  }

  // ---------------------------------------------------------------------------
  // removeFromCart

  /** Removing an identifier no line carries leaves the cart as it was. */
  lemma {:induction false} RemoveAbsent(cart: Cart, id: string)
    requires !HasLine(cart, id)
    ensures RemoveId(cart, id) == cart
  {
    if |cart| > 0 {
      assert cart[0].id != id;
      assert !HasLine(cart[1..], id) by {
        forall i | 0 <= i < |cart[1..]| ensures cart[1..][i].id != id {
          assert cart[1..][i] == cart[i + 1];
        }
      }
      RemoveAbsent(cart[1..], id);
      assert cart == [cart[0]] + cart[1..];
    }
  }

  /** Removing twice is removing once. */
  lemma RemoveIdempotent(cart: Cart, id: string)
    ensures RemoveId(RemoveId(cart, id), id) == RemoveId(cart, id)
  {
    RemoveAbsent(RemoveId(cart, id), id);
  }

  /** Removal works line by line: it distributes over concatenation, so the
      surviving lines keep their relative order. */
  lemma {:induction false} RemoveDistributes(a: Cart, b: Cart, id: string)
    ensures RemoveId(a + b, id) == RemoveId(a, id) + RemoveId(b, id)
  {
    if |a| == 0 {
      assert a + b == b;
    } else {
      assert (a + b)[0] == a[0];
      assert (a + b)[1..] == a[1..] + b;
      RemoveDistributes(a[1..], b, id);
    }
  }

  /** The tail of a cart with unique identifiers has unique identifiers, none of
      which is the head's. */
  lemma TailUnique(cart: Cart)
    requires UniqueIds(cart) && |cart| > 0
    ensures UniqueIds(cart[1..])
    ensures !HasLine(cart[1..], cart[0].id)
  {
  }

  lemma TailPositive(cart: Cart)
    requires PositiveQuantities(cart) && |cart| > 0
    ensures PositiveQuantities(cart[1..])
  {
  }

  /** In a cart with unique identifiers, no other line carries line `k`'s identifier. */
  lemma OthersLackId(cart: Cart, k: nat)
    requires UniqueIds(cart) && k < |cart|
    ensures !HasLine(cart[..k], cart[k].id)
    ensures !HasLine(cart[k + 1..], cart[k].id)
  {
  }

  lemma SplitAt(cart: Cart, k: nat)
    requires k < |cart|
    ensures cart == cart[..k] + ([cart[k]] + cart[k + 1..])
  {
  }

  /** In a cart with unique identifiers, removing the item of line `k` splices
      out exactly that line. */
  lemma RemoveSplices(cart: Cart, k: nat)
    requires UniqueIds(cart) && k < |cart|
    ensures RemoveId(cart, cart[k].id) == cart[..k] + cart[k + 1..]
  {
    var id := cart[k].id;
    var before, after := cart[..k], cart[k + 1..];
    SplitAt(cart, k);
    OthersLackId(cart, k);
    RemoveDistributes(before, [cart[k]] + after, id);
    RemoveDistributes([cart[k]], after, id);
    RemoveAbsent(before, id);
    RemoveAbsent(after, id);
    RemoveOwnLine(cart[k]);
  }

  lemma RemoveOwnLine(line: CartLine)
    ensures RemoveId([line], line.id) == []
  {
  }

  /** No line survives removal unless it was in the cart. */
  lemma RemoveSurvivorsFromCart(cart: Cart, id: string, x: string)
    requires !HasLine(cart, x)
    ensures !HasLine(RemoveId(cart, id), x)
  {
  }

  /** Removal keeps identifiers unique and quantities positive. */
  lemma {:induction false} RemovePreservesWellFormed(cart: Cart, id: string)
    requires WellFormed(cart)
    ensures WellFormed(RemoveId(cart, id))
  {
    if |cart| > 0 {
      var rest := cart[1..];
      TailUnique(cart);
      TailPositive(cart);
      RemovePreservesWellFormed(rest, id);
      if cart[0].id != id {
        var tail := RemoveId(rest, id);
        RemoveSurvivorsFromCart(rest, id, cart[0].id);
        ConsUnique(cart[0], tail);
      }
    }
  }

  lemma ConsUnique(head: CartLine, tail: Cart)
    requires WellFormed(tail) && !HasLine(tail, head.id) && head.quantity >= 1
    ensures WellFormed([head] + tail)
  {
  }

  /** Removing an item takes all of its units and no one else's. */
  lemma {:induction false} RemoveQuantity(cart: Cart, id: string, x: string)
    ensures QuantityOf(RemoveId(cart, id), x) == if x == id then 0 else QuantityOf(cart, x)
  {
    if |cart| > 0 {
      RemoveQuantity(cart[1..], id, x);
      if cart[0].id != id {
        assert ([cart[0]] + RemoveId(cart[1..], id))[1..] == RemoveId(cart[1..], id);
      }
    }
  }

  /** Removing one item and then another is the same as the other order. */
  lemma {:induction false} RemoveCommutes(cart: Cart, a: string, b: string)
    ensures RemoveId(RemoveId(cart, a), b) == RemoveId(RemoveId(cart, b), a)
  {
    if |cart| > 0 {
      RemoveCommutes(cart[1..], a, b);
      var c := cart[0];
      if c.id != a {
        assert ([c] + RemoveId(cart[1..], a))[1..] == RemoveId(cart[1..], a);
      }
      if c.id != b {
        assert ([c] + RemoveId(cart[1..], b))[1..] == RemoveId(cart[1..], b);
      }
      if c.id != a && c.id != b {
        assert ([c] + RemoveId(RemoveId(cart[1..], a), b))
               == RemoveId([c] + RemoveId(cart[1..], a), b);
      }
    }
  }

  /** Removing an item undoes every add of it: whatever was added, the rest of the
      cart is what removing from the original cart gives. */
  lemma AddThenRemove(cart: Cart, item: MenuItem)
    ensures RemoveId(AddToCart(cart, item), item.id) == RemoveId(cart, item.id)
  {
    if HasLine(cart, item.id) {
      AddThenRemoveBump(cart, item.id);
    } else {
      RemoveDistributes(cart, [NewLine(item)], item.id);
      assert cart + [NewLine(item)] == AddToCart(cart, item);
    }
  }

  lemma AddThenRemoveBump(cart: Cart, id: string)
    ensures RemoveId(Bump(cart, id), id) == RemoveId(cart, id)
  {
    RemoveAgree(Bump(cart, id), cart, id);
  }

  /** Carts that differ only in lines carrying `id` agree once `id` is removed. */
  lemma {:induction false} RemoveAgree(a: Cart, b: Cart, id: string)
    requires |a| == |b|
    requires forall i :: 0 <= i < |a| ==> a[i].id == b[i].id
    requires forall i :: 0 <= i < |a| && a[i].id != id ==> a[i] == b[i]
    ensures RemoveId(a, id) == RemoveId(b, id)
  {
    if |a| > 0 {
      forall i | 0 <= i < |a| - 1 ensures a[1..][i].id == b[1..][i].id {
        assert a[1..][i] == a[i + 1] && b[1..][i] == b[i + 1];
      }
      forall i | 0 <= i < |a| - 1 && a[1..][i].id != id ensures a[1..][i] == b[1..][i] {
        assert a[1..][i] == a[i + 1] && b[1..][i] == b[i + 1];
      }
      RemoveAgree(a[1..], b[1..], id);
    }
  }

  // ---------------------------------------------------------------------------
  // Checkout gate

  /** After any add the checkout button is enabled. */
  lemma AddEnablesCheckout(cart: Cart, item: MenuItem)
    ensures !CheckoutDisabled(AddToCart(cart, item))
  {
  }

  /** After a remove the button is disabled exactly when every line carried the
      removed item. */
  lemma {:induction false} RemoveDisablesCheckout(cart: Cart, id: string)
    ensures CheckoutDisabled(RemoveId(cart, id))
            <==> forall i :: 0 <= i < |cart| ==> cart[i].id == id
  {
    if |cart| > 0 {
      RemoveDisablesCheckout(cart[1..], id);
      if cart[0].id == id {
        assert (forall i :: 0 <= i < |cart| ==> cart[i].id == id)
               <==> (forall i :: 0 <= i < |cart[1..]| ==> cart[1..][i].id == id);
      }
    }
  }

  /** For a well-formed cart the gate agrees with counting units: checkout is
      disabled exactly when nothing is ordered. */
  lemma {:induction false} CheckoutGateCountsUnits(cart: Cart)
    requires PositiveQuantities(cart)
    ensures CheckoutDisabled(cart) <==> TotalQuantity(cart) == 0
    ensures TotalQuantity(cart) >= |cart|
  {
    if |cart| > 0 {
      assert PositiveQuantities(cart[1..]) by {
        forall i | 0 <= i < |cart[1..]| ensures cart[1..][i].quantity >= 1 {
          assert cart[1..][i] == cart[i + 1];
        }
      }
      CheckoutGateCountsUnits(cart[1..]);
    }
  }
}
