/**
  The cart page (frontend/app/cart/page.tsx): unrounded totals, the empty
  view, and the minus, plus, remove and clear buttons wired to the cart.
*/
module CartPage {
  import opened Util
  import opened Money
  import opened CartEngine
  import Checkout

  /** `tax`: eight per cent of the subtotal, not rounded. */
  function CartTax(items: seq<CartLine>): real {
    Subtotal(items) * 0.08
  }

  /** `total`: subtotal, the 3.99 fee and the unrounded tax. */
  function CartTotal(items: seq<CartLine>): real {
    Subtotal(items) + 3.99 + CartTax(items)
  }

  /**
    The checkout page charges the cart page's tax rounded to cents, and its
    total differs from the cart page's by at most a cent.
  */
  lemma CartAndCheckoutAgree(items: seq<CartLine>)
    ensures Checkout.CheckoutTax(items) == Round2(CartTax(items))
    ensures -0.01 <= Checkout.CheckoutTotal(items) - CartTotal(items) <= 0.01
  {
    var t := Checkout.CheckoutTax(items);
    assert -0.005 <= t - CartTax(items) <= 0.005;
  }

  /** What the page shows. */
  datatype CartView =
    | EmptyView
    | ItemsView(lines: seq<CartLine>, subtotal: real, deliveryFee: real, tax: real, total: real)

  function Render(items: seq<CartLine>): (v: CartView)
    ensures v.EmptyView? <==> |items| == 0
    ensures v.ItemsView? ==> v.lines == items && v.total == v.subtotal + v.deliveryFee + v.tax
  {
    if |items| == 0 then EmptyView
    else ItemsView(items, Subtotal(items), 3.99, CartTax(items), CartTotal(items))
  }

  /** The quantity the minus button of a line requests; None while it is disabled. */
  function MinusRequest(l: CartLine): (r: Option<int>)
    ensures r.Some? ==> r.value >= 1 && r.value == l.quantity - 1
    ensures r.None? <==> l.quantity <= 1
  {
    if l.quantity <= 1 then None else Some(l.quantity - 1)
  }

  /** The quantity the plus button of a line requests. */
  function PlusRequest(l: CartLine): int {
    l.quantity + 1
  }

  ghost predicate AllPositive(items: seq<CartLine>) {
    forall i :: 0 <= i < |items| ==> items[i].quantity >= 1
  }

  /** A quantity request of at least 1 keeps every line's quantity at least 1. */
  lemma SetQuantityKeepsPositive(items: seq<CartLine>, id: Option<string>, q: int)
    requires AllPositive(items) && q >= 1
    ensures AllPositive(SetQuantity(items, id, q))
  {
    SetQuantityEveryLineOfId(items, id, q);
  }

  /**
    The buttons act on every line with the same pizza id: pressing minus on a
    Large line also sets a Small line of the same pizza to the Large line's
    quantity less one.
  */
  lemma MinusMovesSiblings(small: CartLine, large: CartLine)
    requires small.id == large.id && small.size != large.size
    requires small.quantity == 1 && large.quantity == 4
    ensures SetQuantity([small, large], large.id, MinusRequest(large).value) ==
      [small.(quantity := 3), large.(quantity := 3)]
  {
    SetQuantityEveryLineOfId([small, large], large.id, 3);
  }

  /** Pressing minus on line `k`: nothing while disabled, else `updateQuantity(item.id, item.quantity - 1)`. */
  method ClickMinus(cart: Cart, k: nat)
    requires cart.Valid() && k < |cart.items|
    modifies cart
    ensures cart.Valid()
    ensures cart.items == match MinusRequest(old(cart.items)[k])
      case None => old(cart.items)
      case Some(q) => SetQuantity(old(cart.items), old(cart.items)[k].id, q)
    ensures AllPositive(old(cart.items)) ==> AllPositive(cart.items)
  {
    var item := cart.items[k];
    if item.quantity > 1 {
      if AllPositive(cart.items) {
        SetQuantityKeepsPositive(cart.items, item.id, item.quantity - 1);
      }
      cart.UpdateQuantity(item.id, item.quantity - 1);
    }
  }

  /** Pressing plus on line `k`: `updateQuantity(item.id, item.quantity + 1)`. */
  method ClickPlus(cart: Cart, k: nat)
    requires cart.Valid() && k < |cart.items|
    modifies cart
    ensures cart.Valid()
    ensures cart.items == SetQuantity(old(cart.items), old(cart.items)[k].id, PlusRequest(old(cart.items)[k]))
    ensures AllPositive(old(cart.items)) ==> AllPositive(cart.items)
  {
    var item := cart.items[k];
    if AllPositive(cart.items) {
      SetQuantityKeepsPositive(cart.items, item.id, item.quantity + 1);
    }
    cart.UpdateQuantity(item.id, item.quantity + 1);
  }

  /** Pressing the bin on line `k`: `removeFromCart(item.id)`, which drops every line of that pizza. */
  method ClickRemove(cart: Cart, k: nat)
    requires cart.Valid() && k < |cart.items|
    modifies cart
    ensures cart.Valid()
    ensures cart.items == RemoveId(old(cart.items), old(cart.items)[k].id)
    ensures forall i :: 0 <= i < |cart.items| ==> cart.items[i].id != old(cart.items)[k].id
  {
    var item := cart.items[k];
    cart.RemoveFromCart(item.id);
  }

  /** "Clear Cart". */
  method ClickClear(cart: Cart)
    requires cart.Valid()
    modifies cart
    ensures cart.Valid() && cart.items == []
    ensures Render(cart.items) == EmptyView
  {
    cart.ClearCart();
  }
}
