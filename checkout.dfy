/**
  The checkout page (frontend/app/checkout/page.tsx): the rounded totals of
  the cart, the guard chain of `handlePlaceOrder`, the order payload it posts
  and the clearing of the cart after a successful response.
*/
module Checkout {
  import opened Util
  import opened Money
  import opened Records
  import opened CartEngine

  /** The delivery fee, the same for every area. */
  const DeliveryFee: real := 3.99

  const TaxRate: real := 0.08

  /** The delivery form. */
  datatype CustomerInfo = CustomerInfo(
    name: string,
    email: string,
    phone: string,
    address: string,
    area: string,
    instructions: string)

  datatype CardInfo = CardInfo(number: string, expiry: string, cvv: string, name: string)

  /** The four refusals, in the order the page checks them. */
  datatype CheckoutError = MissingInformation | AreaNotAvailable | PaymentInformationRequired | CartEmpty

  /** What pressing "Place Order" does: a refusal, or the payload sent. */
  datatype Submission = Refused(error: CheckoutError) | Sent(payload: OrderPayload)

  /** `tax`: eight per cent of the subtotal, rounded to cents. */
  function CheckoutTax(items: seq<CartLine>): (r: real)
    ensures -0.005 <= r - Subtotal(items) * TaxRate <= 0.005
    ensures r * 100.0 == Cents(Subtotal(items) * TaxRate) as real
  {
    Round2(Subtotal(items) * TaxRate)
  }

  /** `total`: subtotal, fee and rounded tax, rounded again to cents. */
  function CheckoutTotal(items: seq<CartLine>): (r: real)
    ensures -0.005 <= r - (Subtotal(items) + DeliveryFee + CheckoutTax(items)) <= 0.005
    ensures r * 100.0 == Cents(Subtotal(items) + DeliveryFee + CheckoutTax(items)) as real
  {
    Round2(Subtotal(items) + DeliveryFee + CheckoutTax(items))
  }

  /** When the subtotal is a whole number of cents, the final rounding changes nothing. */
  lemma TotalOfWholeCents(items: seq<CartLine>, c: int)
    requires Subtotal(items) == c as real / 100.0
    ensures CheckoutTotal(items) == Subtotal(items) + DeliveryFee + CheckoutTax(items)
  {
    var k := Cents(Subtotal(items) * TaxRate);
    assert CheckoutTax(items) == k as real / 100.0;
    assert Subtotal(items) + DeliveryFee + CheckoutTax(items) == (c + 399 + k) as real / 100.0;
    Round2OfCents(c + 399 + k);
  }

  /** Two pizzas at 16.49: subtotal 32.98, tax 2.64 (from 2.6384), total 39.61. */
  lemma TwoPizzasScenario(l: CartLine)
    requires l.unitPrice == 16.49 && l.quantity == 2
    ensures Subtotal([l]) == 32.98
    ensures CheckoutTax([l]) == 2.64
    ensures CheckoutTotal([l]) == 39.61
  {
    assert [l][..0] == [];
    assert LineAmount(l) == 32.98;
    assert SumReal([l], LineAmount) == SumReal([], LineAmount) + LineAmount(l);
    assert Cents(32.98 * TaxRate) == 264;
    Round2OfCents(3961);
    assert 32.98 + DeliveryFee + 2.64 == 3961 as real / 100.0;
  }

  /** `areas[i]` is the first area named `name`. */
  predicate FirstNamed(areas: seq<Area>, name: string, i: nat) {
    i < |areas| && areas[i].name == name && forall j :: 0 <= j < i ==> areas[j].name != name
  }

  /** `areas.find(area => area.name === customerInfo.area)`. */
  function FindArea(areas: seq<Area>, name: string): (r: Option<Area>)
    ensures r.None? <==> forall i :: 0 <= i < |areas| ==> areas[i].name != name
    ensures r.Some? ==> exists i: nat :: FirstNamed(areas, name, i) && areas[i] == r.value
  {
    var r := FindBy(areas, (a: Area) => a.name, name);
    if r.Some? then
      FindByFirst(areas, (a: Area) => a.name, name);
      r
    else r
  }

  /** `selectedArea?.isActive`: the first area of that name exists and is active. */
  predicate Deliverable(areas: seq<Area>, name: string) {
    FindArea(areas, name).Some? && FindArea(areas, name).value.isActive
  }

  predicate CardComplete(card: CardInfo) {
    card.number != "" && card.expiry != "" && card.cvv != ""
  }

  /** The guard chain of `handlePlaceOrder`: the first failing check, or None. */
  function Validate(info: CustomerInfo, areas: seq<Area>, paymentMethod: string, card: CardInfo,
                    items: seq<CartLine>): (r: Option<CheckoutError>)
    ensures r.None? <==>
      info.name != "" && info.phone != "" && info.address != "" && info.area != "" &&
      Deliverable(areas, info.area) &&
      (paymentMethod == "card" ==> CardComplete(card)) &&
      |items| > 0
  {
    if info.name == "" || info.phone == "" || info.address == "" || info.area == "" then
      Some(MissingInformation)
    else if !Deliverable(areas, info.area) then
      Some(AreaNotAvailable)
    else if paymentMethod == "card" && (card.number == "" || card.expiry == "" || card.cvv == "") then
      Some(PaymentInformationRequired)
    else if |items| == 0 then
      Some(CartEmpty)
    else
      None
  }

  /** Each refusal is reported only when every earlier check passed. */
  lemma GuardPrecedence(info: CustomerInfo, areas: seq<Area>, paymentMethod: string, card: CardInfo,
                        items: seq<CartLine>)
    ensures (info.name == "" || info.phone == "" || info.address == "" || info.area == "") ==>
      Validate(info, areas, paymentMethod, card, items) == Some(MissingInformation)
    ensures Validate(info, areas, paymentMethod, card, items) == Some(AreaNotAvailable) ==>
      info.area != "" && !Deliverable(areas, info.area)
    ensures Validate(info, areas, paymentMethod, card, items) == Some(PaymentInformationRequired) ==>
      Deliverable(areas, info.area) && paymentMethod == "card" && !CardComplete(card)
    ensures Validate(info, areas, paymentMethod, card, items) == Some(CartEmpty) ==>
      Deliverable(areas, info.area) && (paymentMethod == "card" ==> CardComplete(card)) && |items| == 0
  {
  }

  /** Paying cash, the card fields are never looked at. */
  lemma CashSkipsCard(info: CustomerInfo, areas: seq<Area>, card1: CardInfo, card2: CardInfo, items: seq<CartLine>)
    ensures Validate(info, areas, "cash", card1, items) == Validate(info, areas, "cash", card2, items)
  {
  }

  /** The name on the card is never required. */
  lemma CardNameNotRequired(info: CustomerInfo, areas: seq<Area>, paymentMethod: string, card: CardInfo,
                            items: seq<CartLine>, name: string)
    ensures Validate(info, areas, paymentMethod, card.(name := name), items) ==
      Validate(info, areas, paymentMethod, card, items)
  {
  }

  /** Only the first area with the chosen name counts: an inactive one hides an active namesake. */
  lemma FirstAreaDecides(a1: Area, a2: Area)
    requires a1.name == a2.name && !a1.isActive && a2.isActive
    ensures !Deliverable([a1, a2], a1.name)
  {
  }

  /** One order line built from a cart line: missing extras become `[]`, `unitPrice` becomes `price`. */
  function ToOrderItem(l: CartLine): OrderItem {
    OrderItem(l.name, l.size, l.extras.GetOr([]), l.quantity, l.unitPrice, l.image)
  }

  /** `cartItems.map(...)`: one order line per cart line, in order. */
  function OrderItems(items: seq<CartLine>): (r: seq<OrderItem>)
    ensures |r| == |items|
    ensures forall i :: 0 <= i < |items| ==> r[i] == ToOrderItem(items[i])
  {
    Map(items, ToOrderItem)
  }

  function ItemAmount(i: OrderItem): real {
    i.price * i.quantity as real
  }

  /** The posted lines add up to the posted subtotal. */
  lemma {:induction false} OrderItemsAddUp(items: seq<CartLine>)
    ensures SumReal(OrderItems(items), ItemAmount) == Subtotal(items)
  {
    if |items| > 0 {
      var p := items[..|items| - 1];
      OrderItemsAddUp(p);
      assert OrderItems(items)[..|items| - 1] == OrderItems(p);
    }
  }

  /** The posted order, built once every guard passed. */
  function CheckoutPayload(info: CustomerInfo, paymentMethod: string, items: seq<CartLine>): OrderPayload {
    OrderPayload(info.name, info.phone, Some(info.email), info.address, Some(info.area),
      OrderItems(items), Subtotal(items), DeliveryFee, CheckoutTax(items), CheckoutTotal(items),
      "pending", paymentMethod, info.instructions, None, None)
  }

  /** Pressing "Place Order". */
  function Submit(info: CustomerInfo, areas: seq<Area>, paymentMethod: string, card: CardInfo,
                  items: seq<CartLine>): (r: Submission)
    ensures r.Sent? <==> Validate(info, areas, paymentMethod, card, items).None?
  {
    match Validate(info, areas, paymentMethod, card, items)
    case Some(e) => Refused(e)
    case None => Sent(CheckoutPayload(info, paymentMethod, items))
  }

  /**
    A sent order is pending, carries the cart line for line, a fee of 3.99
    whatever the area's own fee, and amounts that agree with its lines.
  */
  lemma SentPayload(info: CustomerInfo, areas: seq<Area>, paymentMethod: string, card: CardInfo,
                    items: seq<CartLine>)
    requires Submit(info, areas, paymentMethod, card, items).Sent?
    ensures var p := Submit(info, areas, paymentMethod, card, items).payload;
      && p.status == "pending"
      && p.deliveryFee == 3.99
      && |p.items| == |items| > 0
      && SumReal(p.items, ItemAmount) == p.subtotal
      && p.tax == Round2(p.subtotal * 0.08)
      && p.total == Round2(p.subtotal + p.deliveryFee + p.tax)
      && -0.005 <= p.tax - p.subtotal * 0.08 <= 0.005
      && -0.005 <= p.total - (p.subtotal + p.deliveryFee + p.tax) <= 0.005
      && p.area == Some(info.area) && p.paymentMethod == paymentMethod
  {
    OrderItemsAddUp(items);
  }

  /**
    `handlePlaceOrder` against the cart: the cart is cleared only when the
    order was sent and the server answered with success.
  */
  method PlaceOrder(cart: Cart, info: CustomerInfo, areas: seq<Area>, paymentMethod: string,
                    card: CardInfo, responseOk: bool) returns (s: Submission)
    requires cart.Valid()
    modifies cart
    ensures cart.Valid()
    ensures s == Submit(info, areas, paymentMethod, card, old(cart.items))
    ensures cart.items == if s.Sent? && responseOk then [] else old(cart.items)
  {
    s := Submit(info, areas, paymentMethod, card, cart.items);
    if s.Sent? && responseOk {
      cart.ClearCart();
    }
  }
}
