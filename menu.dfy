/**
  The storefront menu (frontend/app/menu/page.tsx): which pizzas are listed
  under the search and the three filters, and the cart line its
  "Add to Cart" button builds.
*/
module Menu {
  import opened Util
  import opened Text
  import opened Records
  import opened CartEngine

  predicate MatchesSearch(p: Pizza, term: string) {
    ContainsIgnoreCase(p.name, term) || ContainsIgnoreCase(p.description, term)
  }

  /** "all", "veg" or "non-veg"; any other value lets nothing through. */
  predicate MatchesType(p: Pizza, filterType: string) {
    filterType == "all" || (filterType == "veg" && p.isVeg) || (filterType == "non-veg" && !p.isVeg)
  }

  /** "all", "spicy" or "mild"; any other value lets nothing through. */
  predicate MatchesSpice(p: Pizza, filterSpicy: string) {
    filterSpicy == "all" || (filterSpicy == "spicy" && p.isSpicy) || (filterSpicy == "mild" && !p.isSpicy)
  }

  /** "all", or a size present, non-empty and equal to the choice ignoring case. */
  predicate MatchesSize(p: Pizza, filterSize: string) {
    filterSize == "all" || (p.size.Some? && |p.size.value| > 0 && Lower(p.size.value) == Lower(filterSize))
  }

  /** The callback of `filteredPizzas`: an unavailable pizza is never listed. */
  predicate Listed(p: Pizza, term: string, filterType: string, filterSpicy: string, filterSize: string) {
    p.isAvailable && MatchesSearch(p, term) && MatchesType(p, filterType) &&
    MatchesSpice(p, filterSpicy) && MatchesSize(p, filterSize)
  }

  function FilteredPizzas(pizzas: seq<Pizza>, term: string, filterType: string, filterSpicy: string,
                          filterSize: string): (r: seq<Pizza>)
    ensures |r| <= |pizzas|
    ensures forall i :: 0 <= i < |r| ==> r[i].isAvailable
  {
    Filter(pizzas, (p: Pizza) => Listed(p, term, filterType, filterSpicy, filterSize))
  }

  /** A pizza is listed exactly when it is loaded, available and passes all four tests. */
  lemma ListedIff(pizzas: seq<Pizza>, term: string, filterType: string, filterSpicy: string, filterSize: string,
                  p: Pizza)
    ensures p in FilteredPizzas(pizzas, term, filterType, filterSpicy, filterSize) <==>
      p in pizzas && p.isAvailable && MatchesSearch(p, term) && MatchesType(p, filterType) &&
      MatchesSpice(p, filterSpicy) && MatchesSize(p, filterSize)
  {
    if p in pizzas && Listed(p, term, filterType, filterSpicy, filterSize) {
      var i :| 0 <= i < |pizzas| && pizzas[i] == p;
    }
  }

  predicate IsAvailable(p: Pizza) {
    p.isAvailable
  }

  /** With no search and every filter at "all", the available pizzas are listed, in order. */
  lemma NoFilterListsAvailable(pizzas: seq<Pizza>)
    ensures FilteredPizzas(pizzas, "", "all", "all", "all") == Filter(pizzas, IsAvailable)
  {
    forall i | 0 <= i < |pizzas| ensures MatchesSearch(pizzas[i], "") {
      EmptySearchMatches(pizzas[i].name);
    }
    FilterSameTest(pizzas, (p: Pizza) => Listed(p, "", "all", "all", "all"), IsAvailable);
  }

  /** "veg" and "non-veg" split the available pizzas that pass the other tests without overlap. */
  lemma TypeFiltersSplit(p: Pizza, term: string, filterSpicy: string, filterSize: string)
    ensures Listed(p, term, "veg", filterSpicy, filterSize) != Listed(p, term, "non-veg", filterSpicy, filterSize)
      <==> Listed(p, term, "all", filterSpicy, filterSize)
  {
  }

  /** A pizza carrying no size is never listed once a size is chosen. */
  lemma SizeFilterNeedsSize(pizzas: seq<Pizza>, term: string, filterType: string, filterSpicy: string,
                            filterSize: string)
    requires filterSize != "all"
    requires forall i :: 0 <= i < |pizzas| ==> pizzas[i].size.None?
    ensures FilteredPizzas(pizzas, term, filterType, filterSpicy, filterSize) == []
  {
    FilterNone(pizzas, (p: Pizza) => Listed(p, term, filterType, filterSpicy, filterSize));
  }

  /** The size choice ignores case: "large" finds a pizza whose size is "Large". */
  lemma SizeIgnoresCase(p: Pizza)
    requires p.size == Some("Large")
    ensures MatchesSize(p, "large")
  {
    assert Lower("Large") == "large";
    assert Lower("large") == "large";
  }

  /**
    The line "Add to Cart" builds, as written: the id is the pizza's `id`
    key, with no size and no extras, one pizza at the listed price.
  */
  function MenuLine(p: Pizza): (r: CartLine)
    ensures r.id == p.idKey && r.size.None? && r.extras.None?
    ensures r.quantity == 1 && LineAmount(r) == p.price
  {
    CartLine(p.idKey, p.name, p.image, None, None, 1, p.price)
  }

  /**
    As served, a pizza carries no `id` key, so every menu line lands in the
    same cart slot: adding a second, different pizza only raises the first
    line's quantity, and the cart charges the first pizza's price for both.
  */
  lemma MenuLinesMerge(a: Pizza, b: Pizza)
    requires a.idKey.None? && b.idKey.None?
    ensures AddLine(AddLine([], MenuLine(a)), MenuLine(b)) == [MenuLine(a).(quantity := 2)]
    ensures Subtotal(AddLine(AddLine([], MenuLine(a)), MenuLine(b))) == 2.0 * a.price
  {
    var once := AddLine([], MenuLine(a));
    assert once == [MenuLine(a)];
    assert FindSlot(once, KeyOf(MenuLine(b))) == Some(0);
    var twice := AddLine(once, MenuLine(b));
    assert twice == [MenuLine(a).(quantity := 2)];
    assert SumReal(twice, LineAmount) == SumReal([], LineAmount) + LineAmount(twice[0]);
  }

  /** ... and removing either pizza from the cart removes every menu line with it. */
  lemma RemoveMenuLineRemovesAll(items: seq<CartLine>, a: Pizza)
    requires a.idKey.None?
    ensures RemoveId(items, MenuLine(a).id) == Filter(items, (l: CartLine) => l.id.Some?)
  {
    FilterSameTest(items, (l: CartLine) => l.id != None, (l: CartLine) => l.id.Some?);
  }

  /** The line with the pizza's database id, which keeps each pizza in a slot of its own. */
  function MenuLineById(p: Pizza): (r: CartLine)
    ensures r.id == Some(p.dbId) && r.size.None? && r.extras.None?
    ensures r.quantity == 1 && LineAmount(r) == p.price
  {
    CartLine(Some(p.dbId), p.name, p.image, None, None, 1, p.price)
  }

  /** Two different pizzas make two lines, each at its own price; the same pizza twice makes one line of two. */
  lemma MenuLinesByIdSeparate(a: Pizza, b: Pizza)
    ensures a.dbId != b.dbId ==>
      AddLine(AddLine([], MenuLineById(a)), MenuLineById(b)) == [MenuLineById(a), MenuLineById(b)]
    ensures a.dbId != b.dbId ==>
      Subtotal(AddLine(AddLine([], MenuLineById(a)), MenuLineById(b))) == a.price + b.price
    ensures AddLine(AddLine([], MenuLineById(a)), MenuLineById(a)) == [MenuLineById(a).(quantity := 2)]
  {
    var la, lb := MenuLineById(a), MenuLineById(b);
    assert AddLine([], la) == [la];
    assert FindSlot([la], KeyOf(la)) == Some(0);
    if a.dbId != b.dbId {
      assert KeyOf(la) != KeyOf(lb);
      AddAppendsNewSlot([la], lb);
      assert SumReal([la, lb], LineAmount) == SumReal([la], LineAmount) + LineAmount(lb);
      assert [la, lb][..1] == [la];
      assert SumReal([la], LineAmount) == SumReal([], LineAmount) + LineAmount(la);
    }
  }

  /**
    "Add to Cart" as written, with the line keyed by the pizza's `id` key.
    Once a menu line is in the cart, a pizza without that key, whichever it
    is, adds no line: it only raises the quantity of the first menu line.
  */
  method AddToCartAsWritten(cart: Cart, p: Pizza)
    requires cart.Valid()
    modifies cart
    ensures cart.Valid()
    ensures cart.items == AddLine(old(cart.items), MenuLine(p))
    ensures TotalQuantity(cart.items) == TotalQuantity(old(cart.items)) + 1
    ensures p.idKey.None? && (exists k :: 0 <= k < |old(cart.items)| && KeyOf(old(cart.items)[k]) == SlotKey(None, None, None))
      ==> |cart.items| == |old(cart.items)|
  {
    cart.AddToCart(MenuLine(p));
  }

  /** "Add to Cart" on a listed pizza, with the line keyed by the database id (corrected). */
  method AddToCart(cart: Cart, p: Pizza)
    requires cart.Valid()
    modifies cart
    ensures cart.Valid()
    ensures cart.items == AddLine(old(cart.items), MenuLineById(p))
    ensures TotalQuantity(cart.items) == TotalQuantity(old(cart.items)) + 1
  {
    cart.AddToCart(MenuLineById(p));
  }
}
