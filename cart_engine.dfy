/**
  The client-side cart of frontend/hooks/use-cart.tsx: an ordered list of
  lines owned by the cart provider and replaced by `addToCart`,
  `removeFromCart`, `updateQuantity` and `clearCart`.

  A line's slot is its pizza id, its size and the JSON text of its extras.
  `JSON.stringify` of an array of strings is injective, and of `undefined` is
  `undefined`, so comparing the serialisations is comparing the
  `Option<seq<string>>` values: order matters, and "no extras" (None) is not
  the empty list.
*/
module CartEngine {
  import opened Util

  /** `CartItem`; `size`, `extras` and (for lines added from the menu) `id` may be undefined. */
  datatype CartLine = CartLine(
    id: Option<string>,
    name: string,
    image: string,
    size: Option<string>,
    extras: Option<seq<string>>,
    quantity: int,
    unitPrice: real)

  /** What `addToCart` compares to decide whether two lines are the same slot. */
  datatype SlotKey = SlotKey(id: Option<string>, size: Option<string>, extras: Option<seq<string>>)

  function KeyOf(l: CartLine): SlotKey {
    SlotKey(l.id, l.size, l.extras)
  }

  /** No two lines occupy the same slot. */
  ghost predicate SlotsUnique(items: seq<CartLine>) {
    forall i, j :: 0 <= i < j < |items| ==> KeyOf(items[i]) != KeyOf(items[j])
  }

  /** `prev.find(...)` of `addToCart`: the first line in the slot `key`, if any. */
  function FindSlot(items: seq<CartLine>, key: SlotKey): (r: Option<nat>)
    ensures r.Some? ==> r.value < |items| && KeyOf(items[r.value]) == key
    ensures r.Some? ==> forall j :: 0 <= j < r.value ==> KeyOf(items[j]) != key
    ensures r.None? <==> forall j :: 0 <= j < |items| ==> KeyOf(items[j]) != key
  {
    if |items| == 0 then None
    else if KeyOf(items[0]) == key then Some(0)
    else
      match FindSlot(items[1..], key)
      case None => None
      case Some(k) => Some(k + 1)
  }

  /** The list `addToCart(item)` leaves: merged into the first line of its slot, else appended. */
  function AddLine(items: seq<CartLine>, item: CartLine): seq<CartLine> {
    match FindSlot(items, KeyOf(item))
    case Some(k) => items[k := items[k].(quantity := items[k].quantity + item.quantity)]
    case None => items + [item]
  }

  /** The list `removeFromCart(id)` leaves. */
  function RemoveId(items: seq<CartLine>, id: Option<string>): seq<CartLine> {
    Filter(items, (l: CartLine) => l.id != id)
  }

  /** The line as `updateQuantity(id, q)` rewrites it. */
  function WithQuantityIf(l: CartLine, id: Option<string>, q: int): CartLine {
    if l.id == id then l.(quantity := q) else l
  }

  /** The list `updateQuantity(id, q)` leaves. */
  function SetQuantity(items: seq<CartLine>, id: Option<string>, q: int): seq<CartLine> {
    Map(items, (l: CartLine) => WithQuantityIf(l, id, q))
  }

  function Quantity(l: CartLine): int {
    l.quantity
  }

  /** The number of pizzas in the cart (the navigation badge shows it). */
  function TotalQuantity(items: seq<CartLine>): int {
    SumInt(items, Quantity)
  }

  /** `item.unitPrice * item.quantity`. */
  function LineAmount(l: CartLine): real {
    l.unitPrice * l.quantity as real
  }

  /**
    The cart subtotal, computed identically by the cart page and the checkout
    page: `items.reduce((sum, item) => sum + item.unitPrice * item.quantity, 0)`.
  */
  function Subtotal(items: seq<CartLine>): real {
    SumReal(items, LineAmount)
  }

  /** When a line of the same slot exists, the first one absorbs the quantity and nothing else changes. */
  lemma AddMergesIntoFirstMatch(items: seq<CartLine>, item: CartLine, k: nat)
    requires k < |items| && KeyOf(items[k]) == KeyOf(item)
    requires forall j :: 0 <= j < k ==> KeyOf(items[j]) != KeyOf(item)
    ensures |AddLine(items, item)| == |items|
    ensures AddLine(items, item)[k] == items[k].(quantity := items[k].quantity + item.quantity)
    ensures forall j :: 0 <= j < |items| && j != k ==> AddLine(items, item)[j] == items[j]
  {
  }

  /** With no line in its slot, the item is appended and the earlier lines are untouched. */
  lemma AddAppendsNewSlot(items: seq<CartLine>, item: CartLine)
    requires forall j :: 0 <= j < |items| ==> KeyOf(items[j]) != KeyOf(item)
    ensures AddLine(items, item) == items + [item]
    ensures |AddLine(items, item)| == |items| + 1
  {
  }

  /** In either branch, `addToCart` raises the number of pizzas by exactly the item's quantity. */
  lemma {:induction false} AddTotalQuantity(items: seq<CartLine>, item: CartLine)
    ensures TotalQuantity(AddLine(items, item)) == TotalQuantity(items) + item.quantity
  {
    match FindSlot(items, KeyOf(item))
    case Some(k) =>
      SumIntUpdate(items, k, items[k].(quantity := items[k].quantity + item.quantity), Quantity);
    case None =>
      SumIntConcat(items, [item], Quantity);
      assert [item][..0] == [];
  }

  /**
    The subtotal grows by the item's quantity priced at the unit price of the
    line that absorbs it: a merged item keeps the existing line's price.
  */
  lemma {:induction false} AddSubtotal(items: seq<CartLine>, item: CartLine)
    ensures Subtotal(AddLine(items, item)) == Subtotal(items) + AbsorbingPrice(items, item) * item.quantity as real
  {
    match FindSlot(items, KeyOf(item))
    case Some(k) =>
      var l := items[k].(quantity := items[k].quantity + item.quantity);
      assert AddLine(items, item) == items[k := l];
      SumRealUpdate(items, k, l, LineAmount);
      MergedLineAmount(items[k], item.quantity);
    case None =>
      assert AddLine(items, item) == items + [item];
      SumRealConcat(items, [item], LineAmount);
      assert [item][..0] == [];
      assert SumReal([item], LineAmount) == LineAmount(item);
  }

  /** The unit price at which an added item is charged: the absorbing line's, or its own. */
  function AbsorbingPrice(items: seq<CartLine>, item: CartLine): real {
    match FindSlot(items, KeyOf(item))
    case Some(k) => items[k].unitPrice
    case None => item.unitPrice
  }

  lemma MergedLineAmount(l: CartLine, q: int)
    ensures LineAmount(l.(quantity := l.quantity + q)) == LineAmount(l) + l.unitPrice * q as real
  {
    assert (l.quantity + q) as real == l.quantity as real + q as real;
  }

  /** `addToCart` keeps every slot occupied at most once. */
  lemma AddKeepsSlotsUnique(items: seq<CartLine>, item: CartLine)
    requires SlotsUnique(items)
    ensures SlotsUnique(AddLine(items, item))
  {
    var r := AddLine(items, item);
    match FindSlot(items, KeyOf(item))
    case Some(k) =>
      assert forall j :: 0 <= j < |r| ==> KeyOf(r[j]) == KeyOf(items[j]);
    case None =>
  }

  /** `removeFromCart` keeps every slot occupied at most once. */
  lemma RemoveKeepsSlotsUnique(items: seq<CartLine>, id: Option<string>)
    requires SlotsUnique(items)
    ensures SlotsUnique(RemoveId(items, id))
  {
    FilterKeepsDistinct(items, (l: CartLine) => l.id != id, KeyOf);
  }

  /** `removeFromCart(id)` drops every line with that id and keeps the others, in order. */
  lemma RemoveDropsExactlyId(items: seq<CartLine>, id: Option<string>)
    ensures forall i :: 0 <= i < |RemoveId(items, id)| ==> RemoveId(items, id)[i].id != id
    ensures forall i :: 0 <= i < |items| && items[i].id != id ==> items[i] in RemoveId(items, id)
    ensures RemoveId(items, id) == Filter(items, (l: CartLine) => l.id != id)
  {
  }

  /** Removing an id no line carries leaves the cart as it was. */
  lemma RemoveAbsentId(items: seq<CartLine>, id: Option<string>)
    requires forall i :: 0 <= i < |items| ==> items[i].id != id
    ensures RemoveId(items, id) == items
  {
    FilterAll(items, (l: CartLine) => l.id != id);
  }

  /** `updateQuantity` rewrites only quantities, so no line changes slot. */
  lemma SetQuantityKeepsSlots(items: seq<CartLine>, id: Option<string>, q: int)
    ensures |SetQuantity(items, id, q)| == |items|
    ensures forall i :: 0 <= i < |items| ==> KeyOf(SetQuantity(items, id, q)[i]) == KeyOf(items[i])
    ensures SlotsUnique(items) ==> SlotsUnique(SetQuantity(items, id, q))
  {
  }

  /**
    `updateQuantity(id, q)` sets `q` on every line with the id, whatever its size
    or extras, with no lower bound on `q`, and leaves every other line alone.
  */
  lemma SetQuantityEveryLineOfId(items: seq<CartLine>, id: Option<string>, q: int)
    ensures forall i :: 0 <= i < |items| && items[i].id == id ==>
      SetQuantity(items, id, q)[i] == items[i].(quantity := q)
    ensures forall i :: 0 <= i < |items| && items[i].id != id ==>
      SetQuantity(items, id, q)[i] == items[i]
  {
  }

  /** Extras are compared as ordered lists: the same toppings in another order open a new line. */
  lemma ExtrasOrderOpensNewLine(l: CartLine)
    requires l.extras == Some(["Olives", "Bacon"])
    ensures |AddLine([l], l.(extras := Some(["Bacon", "Olives"])))| == 2
  {
    assert ["Olives", "Bacon"][0] != ["Bacon", "Olives"][0];
  }

  /** A line without extras and a line with an empty extras list are different slots. */
  lemma MissingExtrasIsNotEmptyExtras(l: CartLine)
    requires l.extras == None
    ensures |AddLine([l], l.(extras := Some([])))| == 2
  {
  }

  /** The provider's `items` state. */
  class Cart {
    var items: seq<CartLine>

    ghost predicate Valid()
      reads this
    {
      SlotsUnique(items)
    }

    constructor ()
      ensures Valid() && items == []
    {
      items := [];
    }

    /** `addToCart(item)`. */
    method AddToCart(item: CartLine)
      requires Valid()
      modifies this
      ensures Valid()
      ensures items == AddLine(old(items), item)
      ensures TotalQuantity(items) == TotalQuantity(old(items)) + item.quantity
    {
      AddTotalQuantity(items, item);
      AddKeepsSlotsUnique(items, item);
      var existing := FindSlot(items, KeyOf(item));
      match existing {
        case Some(k) =>
          items := items[k := items[k].(quantity := items[k].quantity + item.quantity)];
        case None =>
          items := items + [item];
      }
    }

    /** `removeFromCart(id)`. */
    method RemoveFromCart(id: Option<string>)
      requires Valid()
      modifies this
      ensures Valid()
      ensures items == RemoveId(old(items), id)
      ensures forall i :: 0 <= i < |items| ==> items[i].id != id
    {
      RemoveKeepsSlotsUnique(items, id);
      items := Filter(items, (l: CartLine) => l.id != id);
    }

    /** `updateQuantity(id, quantity)`. */
    method UpdateQuantity(id: Option<string>, quantity: int)
      requires Valid()
      modifies this
      ensures Valid()
      ensures items == SetQuantity(old(items), id, quantity)
      ensures |items| == |old(items)|
      ensures forall i :: 0 <= i < |items| ==> KeyOf(items[i]) == KeyOf(old(items)[i])
    {
      SetQuantityKeepsSlots(items, id, quantity);
      items := Map(items, (l: CartLine) => WithQuantityIf(l, id, quantity));
    }

    /** `clearCart()`. */
    method ClearCart()
      requires Valid()
      modifies this
      ensures Valid()
      ensures items == []
    {
      items := [];
    }
  }
}
