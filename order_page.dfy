/**
  The single-pizza order page (frontend/app/order/page.tsx): the size and
  extras price tables, the price of the configured pizza, the form state
  (size, quantity, extras and customer fields), adding the configured pizza
  to the cart, and the "Order Now" payload.
*/
module OrderPage {
  import opened Util
  import opened Records
  import opened CartEngine

  datatype SizeOption = SizeOption(name: string, multiplier: real)

  datatype ExtraOption = ExtraOption(name: string, price: real)

  /** The size table, in the page's order. */
  const Sizes: seq<SizeOption> := [
    SizeOption("Small", 0.8),
    SizeOption("Medium", 1.0),
    SizeOption("Large", 1.3),
    SizeOption("Extra Large", 1.6)]

  /** The extras table. */
  const Extras: seq<ExtraOption> := [
    ExtraOption("Extra Cheese", 2.99),
    ExtraOption("Pepperoni", 3.49),
    ExtraOption("Mushrooms", 2.49),
    ExtraOption("Bell Peppers", 2.49),
    ExtraOption("Olives", 2.99),
    ExtraOption("Onions", 1.99),
    ExtraOption("Jalape\U{00F1}os", 2.49),
    ExtraOption("Bacon", 3.99)]

  /** `sizes.find(s => s.name === name)`. */
  function FindSize(sizes: seq<SizeOption>, name: string): Option<SizeOption> {
    FindBy(sizes, (s: SizeOption) => s.name, name)
  }

  /** `extras.find(e => e.name === name)`. */
  function FindExtra(extras: seq<ExtraOption>, name: string): Option<ExtraOption> {
    FindBy(extras, (e: ExtraOption) => e.name, name)
  }

  /** `(sizes.find(...) || sizes[1]).multiplier`: an unknown size prices as Medium. */
  function SizeMultiplier(size: string): real {
    match FindSize(Sizes, size)
    case Some(s) => s.multiplier
    case None => Sizes[1].multiplier
  }

  /** `extra?.price || 0`: a listed extra costs its table price, an unknown one nothing. */
  function ExtraPrice(name: string): (r: real)
    ensures r > 0.0 <==> exists i :: 0 <= i < |Extras| && Extras[i].name == name
    ensures r > 0.0 ==> exists i :: 0 <= i < |Extras| && Extras[i].name == name && Extras[i].price == r
    ensures r >= 0.0
  {
    match FindExtra(Extras, name)
    case Some(e) => e.price
    case None => 0.0
  }

  /** The multipliers the page offers. */
  lemma SizeMultipliers()
    ensures SizeMultiplier("Small") == 0.8 && SizeMultiplier("Medium") == 1.0
    ensures SizeMultiplier("Large") == 1.3 && SizeMultiplier("Extra Large") == 1.6
  {
    assert Sizes[0].name == "Small";
    assert Sizes[1].name == "Medium";
    assert Sizes[2].name == "Large";
    assert Sizes[3].name == "Extra Large";
  }

  /** Any other size prices as Medium. */
  lemma SizeFallback(size: string)
    requires size !in {"Small", "Medium", "Large", "Extra Large"}
    ensures SizeMultiplier(size) == 1.0
  {
    assert forall i :: 0 <= i < |Sizes| ==> Sizes[i].name != size;
  }

  /** `extrasPrice`: the prices of the selected extras, summed. */
  function ExtrasPrice(selected: seq<string>): real {
    SumReal(selected, ExtraPrice)
  }

  /** `basePrice + extrasPrice`: the price of one configured pizza. */
  function UnitPrice(pizzaPrice: real, size: string, selected: seq<string>): real {
    pizzaPrice * SizeMultiplier(size) + ExtrasPrice(selected)
  }

  /** `totalPrice`: the unit price times the quantity. */
  function TotalPrice(pizzaPrice: real, size: string, selected: seq<string>, quantity: int): real {
    UnitPrice(pizzaPrice, size, selected) * quantity as real
  }

  /** With a non-negative base price, the unit price is at least what the extras cost, and so never negative. */
  lemma UnitPriceNonNegative(pizzaPrice: real, size: string, selected: seq<string>)
    requires pizzaPrice >= 0.0
    ensures UnitPrice(pizzaPrice, size, selected) >= ExtrasPrice(selected) >= 0.0
  {
    ExtrasPriceNonNegative(selected);
    SizeMultiplierPositive(size);
    ScaledNonNegative(pizzaPrice, SizeMultiplier(size), ExtrasPrice(selected));
  }

  /** Every size, listed or not, has a positive multiplier. */
  lemma SizeMultiplierPositive(size: string)
    ensures SizeMultiplier(size) > 0.0
  {
    if size in {"Small", "Medium", "Large", "Extra Large"} {
      SizeMultipliers();
    } else {
      SizeFallback(size);
    }
  }

  lemma ScaledNonNegative(price: real, factor: real, extras: real)
    requires price >= 0.0 && factor > 0.0 && extras >= 0.0
    ensures price * factor + extras >= price * factor >= 0.0
  {
  }

  lemma {:induction false} ExtrasPriceNonNegative(selected: seq<string>)
    ensures ExtrasPrice(selected) >= 0.0
  {
    if |selected| > 0 {
      ExtrasPriceNonNegative(selected[..|selected| - 1]);
    }
  }

  /** A 10.00 pizza, Large, with Pepperoni: 16.49 each, 32.98 for two. */
  lemma LargePepperoniScenario()
    ensures UnitPrice(10.0, "Large", ["Pepperoni"]) == 16.49
    ensures TotalPrice(10.0, "Large", ["Pepperoni"], 2) == 32.98
  {
    SizeMultipliers();
    assert Extras[0].name != "Pepperoni";
    assert FindExtra(Extras, "Pepperoni") == Some(Extras[1]);
    assert ["Pepperoni"][..0] == [];
  }

  /** `handleExtraToggle`: remove the name (every copy) when selected, else append it. */
  function Toggle(selected: seq<string>, name: string): seq<string> {
    if name in selected then Filter(selected, (n: string) => n != name) else selected + [name]
  }

  /** A toggle flips the name's membership and no other name's. */
  lemma ToggleMembership(selected: seq<string>, name: string, other: string)
    ensures name in Toggle(selected, name) <==> name !in selected
    ensures other != name ==> (other in Toggle(selected, name) <==> other in selected)
  {
    if other != name && other in selected && name in selected {
      var i :| 0 <= i < |selected| && selected[i] == other;
    }
  }

  /** Toggles keep a selection free of repeats. */
  lemma ToggleNoDup(selected: seq<string>, name: string)
    requires NoDup(selected)
    ensures NoDup(Toggle(selected, name))
  {
    if name in selected {
      FilterNoDup(selected, (n: string) => n != name);
    }
  }

  /** Removing a name that occurs once removes exactly one element. */
  lemma {:induction false} FilterOutOnce(s: seq<string>, name: string)
    requires NoDup(s) && name in s
    ensures multiset(Filter(s, (n: string) => n != name)) + multiset{name} == multiset(s)
  {
    var s' := s[..|s| - 1];
    var last := s[|s| - 1];
    assert s == s' + [last];
    if last == name {
      assert name !in s';
      FilterAll(s', (n: string) => n != name);
    } else {
      assert name in s';
      FilterOutOnce(s', name);
    }
  }

  /** Toggling a name twice restores the selection: exactly, when it was not selected. */
  lemma ToggleTwice(selected: seq<string>, name: string)
    requires NoDup(selected)
    ensures multiset(Toggle(Toggle(selected, name), name)) == multiset(selected)
    ensures name !in selected ==> Toggle(Toggle(selected, name), name) == selected
  {
    if name in selected {
      var once := Toggle(selected, name);
      ToggleMembership(selected, name, name);
      FilterOutOnce(selected, name);
    } else {
      var once := selected + [name];
      assert name in once;
      FilterAll(selected, (n: string) => n != name);
      assert once[..|once| - 1] == selected;
    }
  }

  /** Toggling an extra on adds its price; toggling it off takes its price away. */
  lemma ToggleExtrasPrice(selected: seq<string>, name: string)
    requires NoDup(selected)
    ensures name !in selected ==> ExtrasPrice(Toggle(selected, name)) == ExtrasPrice(selected) + ExtraPrice(name)
    ensures name in selected ==> ExtrasPrice(Toggle(selected, name)) == ExtrasPrice(selected) - ExtraPrice(name)
  {
    if name in selected {
      FilterOutOnce(selected, name);
      SumOfPermutation(Filter(selected, (n: string) => n != name) + [name], selected);
      SumRealConcat(Filter(selected, (n: string) => n != name), [name], ExtraPrice);
      assert [name][..0] == [];
    } else {
      assert (selected + [name])[..|selected|] == selected;
    }
  }

  /** Sums over the extras do not depend on the order they were picked in. */
  lemma {:induction false} SumOfPermutation(a: seq<string>, b: seq<string>)
    requires multiset(a) == multiset(b)
    ensures SumReal(a, ExtraPrice) == SumReal(b, ExtraPrice)
    decreases |a|
  {
    if |a| > 0 {
      var a' := a[..|a| - 1];
      var x := a[|a| - 1];
      assert a == a' + [x];
      assert x in multiset(b);
      var i :| 0 <= i < |b| && b[i] == x;
      var b' := b[..i] + b[i + 1..];
      SumRealRemove(b, i, ExtraPrice);
      MultisetRemove(b, i);
      MultisetCancel(multiset(a'), multiset(b'), x);
      SumOfPermutation(a', b');
    } else {
      assert |b| == |multiset(b)| == 0;
    }
  }

  lemma MultisetCancel(m: multiset<string>, n: multiset<string>, x: string)
    requires m + multiset{x} == n + multiset{x}
    ensures m == n
  {
    forall y ensures m[y] == n[y] {
      assert (m + multiset{x})[y] == (n + multiset{x})[y];
    }
  }

  /** The quantity after pressing minus: never below one. */
  function Decrement(quantity: int): (r: int)
    ensures r >= 1
    ensures quantity > 1 ==> r == quantity - 1
  {
    Max(1, quantity - 1)
  }

  /** The customer part of the form. */
  datatype OrderCustomer = OrderCustomer(name: string, phone: string, address: string, specialInstructions: string)

  /** The guard shared by "Add to Cart" and "Order Now": `!name || !phone || !address` refuses, an empty string being falsy. */
  predicate CustomerComplete(c: OrderCustomer) {
    |c.name| > 0 && |c.phone| > 0 && |c.address| > 0
  }

  /** The cart line "Add to Cart" builds: the pizza's database id, the choices, and the price of one. */
  function OrderLine(pizza: Pizza, size: string, selected: seq<string>, quantity: int): CartLine {
    CartLine(Some(pizza.dbId), pizza.name, pizza.image, Some(size), Some(selected), quantity,
      UnitPrice(pizza.price, size, selected))
  }

  /**
    The "Order Now" body: one line, unrounded amounts, cash, pending.
    `stored` is the signed-in user kept by the browser, with its email if it
    has one; `now` is the formatted clock reading.
  */
  function OrderNowPayload(c: OrderCustomer, pizza: Pizza, size: string, selected: seq<string>, quantity: int,
                           stored: Option<Option<string>>, now: string): OrderPayload {
    var unit := UnitPrice(pizza.price, size, selected);
    var subtotal := TotalPrice(pizza.price, size, selected, quantity);
    OrderPayload(c.name, c.phone, match stored case None => Some("") case Some(e) => e, c.address, None,
      [OrderItem(pizza.name, Some(size), selected, quantity, unit, pizza.image)],
      subtotal, 3.99, subtotal * 0.08, subtotal + 3.99 + subtotal * 0.08,
      "pending", "cash", c.specialInstructions, Some(now), Some("30 min"))
  }

  /** The line added to the cart is priced per pizza: its amount is the page's total price. */
  lemma OrderLineAmount(pizza: Pizza, size: string, selected: seq<string>, quantity: int)
    ensures OrderLine(pizza, size, selected, quantity).unitPrice == UnitPrice(pizza.price, size, selected)
    ensures Subtotal([OrderLine(pizza, size, selected, quantity)]) == TotalPrice(pizza.price, size, selected, quantity)
  {
    var l := OrderLine(pizza, size, selected, quantity);
    SumRealSingle(l, LineAmount);
    assert LineAmount(l) == TotalPrice(pizza.price, size, selected, quantity);
  }

  /**
    "Order Now" posts what checkout would charge for the same line before
    rounding: the subtotal is the total price, tax is 8% of it, nothing rounded.
  */
  lemma OrderNowAmounts(c: OrderCustomer, pizza: Pizza, size: string, selected: seq<string>, quantity: int,
                        stored: Option<Option<string>>, now: string)
    ensures var p := OrderNowPayload(c, pizza, size, selected, quantity, stored, now);
      && p.subtotal == TotalPrice(pizza.price, size, selected, quantity)
      && p.subtotal == Subtotal([OrderLine(pizza, size, selected, quantity)])
      && p.deliveryFee == 3.99
      && p.tax == p.subtotal * 0.08
      && p.total == p.subtotal + p.deliveryFee + p.tax
      && p.status == "pending" && p.paymentMethod == "cash"
      && |p.items| == 1 && p.items[0].price * p.items[0].quantity as real == p.subtotal
  {
    var p := OrderNowPayload(c, pizza, size, selected, quantity, stored, now);
    assert p.items[0].price == UnitPrice(pizza.price, size, selected) && p.items[0].quantity == quantity;
    OrderLineAmount(pizza, size, selected, quantity);
  }

  /** Without a stored user the email is empty; with one, it is that user's email, possibly missing. */
  lemma OrderNowEmail(c: OrderCustomer, pizza: Pizza, size: string, selected: seq<string>, quantity: int,
                      email: Option<string>, now: string)
    ensures OrderNowPayload(c, pizza, size, selected, quantity, None, now).customerEmail == Some("")
    ensures OrderNowPayload(c, pizza, size, selected, quantity, Some(email), now).customerEmail == email
  {
  }

  /** The page's form state. */
  class OrderForm {
    var selectedSize: string
    var quantity: int
    var selectedExtras: seq<string>
    var customer: OrderCustomer

    ghost predicate Valid()
      reads this
    {
      quantity >= 1 && NoDup(selectedExtras)
    }

    /** Medium, one pizza, no extras, empty customer fields. */
    constructor ()
      ensures Valid()
      ensures selectedSize == "Medium" && quantity == 1 && selectedExtras == []
      ensures customer == OrderCustomer("", "", "", "")
    {
      selectedSize := "Medium";
      quantity := 1;
      selectedExtras := [];
      customer := OrderCustomer("", "", "", "");
    }

    method SelectSize(name: string)
      requires Valid()
      modifies this
      ensures Valid()
      ensures selectedSize == name
      ensures quantity == old(quantity) && selectedExtras == old(selectedExtras) && customer == old(customer)
    {
      selectedSize := name;
    }

    method ToggleExtra(name: string)
      requires Valid()
      modifies this
      ensures Valid()
      ensures selectedExtras == Toggle(old(selectedExtras), name)
      ensures selectedSize == old(selectedSize) && quantity == old(quantity) && customer == old(customer)
    {
      ToggleNoDup(selectedExtras, name);
      if name in selectedExtras {
        selectedExtras := Filter(selectedExtras, (n: string) => n != name);
      } else {
        selectedExtras := selectedExtras + [name];
      }
    }

    /** The minus button. */
    method DecrementQuantity()
      requires Valid()
      modifies this
      ensures Valid()
      ensures quantity == Decrement(old(quantity))
      ensures selectedSize == old(selectedSize) && selectedExtras == old(selectedExtras) && customer == old(customer)
    {
      quantity := Max(1, quantity - 1);
    }

    /** The plus button. */
    method IncrementQuantity()
      requires Valid()
      modifies this
      ensures Valid()
      ensures quantity == old(quantity) + 1
      ensures selectedSize == old(selectedSize) && selectedExtras == old(selectedExtras) && customer == old(customer)
    {
      quantity := quantity + 1;
    }

    /** "Add to Cart": refused, with the cart untouched, while a customer field is empty. */
    method AddToCart(pizza: Pizza, cart: Cart) returns (added: bool)
      requires cart.Valid()
      modifies cart
      ensures cart.Valid()
      ensures added <==> CustomerComplete(customer)
      ensures added ==> cart.items == AddLine(old(cart.items), OrderLine(pizza, selectedSize, selectedExtras, quantity))
      ensures !added ==> cart.items == old(cart.items)
    {
      added := CustomerComplete(customer);
      if added {
        var line := OrderLine(pizza, selectedSize, selectedExtras, quantity);
        ghost var c := customer;
        cart.AddToCart(line);
        assert customer == c;
      }
    }

    /** "Order Now": the payload to post, or None when a customer field is empty. */
    method OrderNow(pizza: Pizza, stored: Option<Option<string>>, now: string) returns (r: Option<OrderPayload>)
      requires Valid()
      ensures r.Some? <==> CustomerComplete(customer)
      ensures r.Some? ==> r.value == OrderNowPayload(customer, pizza, selectedSize, selectedExtras, quantity, stored, now)
    {
      if customer.name == "" || customer.phone == "" || customer.address == "" {
        return None;
      }
      r := Some(OrderNowPayload(customer, pizza, selectedSize, selectedExtras, quantity, stored, now));
    }
  }
}
