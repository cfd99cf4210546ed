/**
  The admin menu page (frontend/app/admin/pizzas/page.tsx): the pizza form
  and the payload it submits, the edit form filled from a pizza, the search
  and category filter, and the availability toggle.
*/
module AdminPizzas {
  import opened Util
  import opened Text
  import opened Records

  const Categories: seq<string> := ["Classic", "Meat", "Vegetarian", "Specialty"]

  /** The form: the price and the ingredients as typed. */
  datatype PizzaForm = PizzaForm(
    name: string,
    description: string,
    price: string,
    category: string,
    isVeg: bool,
    isSpicy: bool,
    isAvailable: bool,
    ingredients: string,
    image: string,
    rating: real,
    featured: bool)

  /** The body posted or put: the form with the price parsed and the ingredients split. */
  datatype PizzaPayload = PizzaPayload(
    name: string,
    description: string,
    price: real,
    category: string,
    isVeg: bool,
    isSpicy: bool,
    isAvailable: bool,
    ingredients: seq<string>,
    image: string,
    rating: real,
    featured: bool)

  /** The form after `resetForm`, and when the page opens. */
  const EmptyForm: PizzaForm := PizzaForm("", "", "", "", false, false, true, "", "", 0.0, false)

  /** `!name || !description || !price || !category` refuses the form. */
  predicate Complete(f: PizzaForm) {
    |f.name| > 0 && |f.description| > 0 && |f.price| > 0 && |f.category| > 0
  }

  /**
    `handleSubmit`: None when a required field is empty, else the payload.
    `price` is what `parseFloat` reads from the price text.
  */
  function SubmitPizza(f: PizzaForm, price: real): (r: Option<PizzaPayload>)
    ensures r.None? <==> !Complete(f)
    ensures r.Some? ==> forall i :: 0 <= i < |r.value.ingredients| ==> Listable(r.value.ingredients[i])
  {
    if !Complete(f) then None
    else
      var ingredients := ParseList(f.ingredients);
      Some(PizzaPayload(f.name, f.description, price, f.category, f.isVeg, f.isSpicy, f.isAvailable,
        ingredients, f.image, f.rating, f.featured))
  }

  /** The payload copies every field of the form except the two it converts. */
  lemma PayloadCopiesForm(f: PizzaForm, price: real)
    requires Complete(f)
    ensures var p := SubmitPizza(f, price).value;
      && p.price == price && p.ingredients == ParseList(f.ingredients)
      && PizzaForm(p.name, p.description, f.price, p.category, p.isVeg, p.isSpicy, p.isAvailable,
                   f.ingredients, p.image, p.rating, p.featured) == f
  {
  }

  /** A freshly reset form cannot be submitted. */
  lemma EmptyFormRefused(price: real)
    ensures SubmitPizza(EmptyForm, price).None?
  {
  }

  /** `handleEdit`: the form filled from a pizza; `priceText` is `price.toString()`. */
  function EditForm(p: Pizza, priceText: string): PizzaForm {
    PizzaForm(p.name, p.description, priceText, p.category, p.isVeg, p.isSpicy, p.isAvailable,
      Join(p.ingredients, ", "), p.image, p.rating, p.featured)
  }

  /**
    Editing a pizza and saving it unchanged puts back the same fields and
    ingredient list, provided every ingredient is non-empty, trimmed and
    free of commas.
  */
  lemma EditThenSave(p: Pizza, priceText: string, price: real)
    requires |p.name| > 0 && |p.description| > 0 && |priceText| > 0 && |p.category| > 0
    requires forall i :: 0 <= i < |p.ingredients| ==> Listable(p.ingredients[i])
    ensures SubmitPizza(EditForm(p, priceText), price) ==
      Some(PizzaPayload(p.name, p.description, price, p.category, p.isVeg, p.isSpicy, p.isAvailable,
                        p.ingredients, p.image, p.rating, p.featured))
  {
    ParseJoinRoundTrip(p.ingredients);
  }

  /** An ingredient with a comma inside does not survive the edit: it comes back as two. */
  lemma CommaIngredientSplits(p: Pizza, priceText: string, price: real, a: string, b: string)
    requires |p.name| > 0 && |p.description| > 0 && |priceText| > 0 && |p.category| > 0
    requires Listable(a) && Listable(b) && p.ingredients == [a + [','] + b]
    ensures SubmitPizza(EditForm(p, priceText), price).value.ingredients == [a, b]
  {
    assert Join(p.ingredients, ", ") == a + [','] + b;
    ParseCommaPair(a, b);
  }

  predicate MatchesSearch(p: Pizza, term: string) {
    ContainsIgnoreCase(p.name, term)
  }

  predicate MatchesCategory(p: Pizza, category: string) {
    category == "all" || p.category == category
  }

  function FilteredPizzas(pizzas: seq<Pizza>, term: string, category: string): (r: seq<Pizza>)
    ensures |r| <= |pizzas|
  {
    Filter(pizzas, (p: Pizza) => MatchesSearch(p, term) && MatchesCategory(p, category))
  }

  /** A pizza is listed exactly when its name matches and the category filter lets it through. */
  lemma ListedIff(pizzas: seq<Pizza>, term: string, category: string, p: Pizza)
    ensures p in FilteredPizzas(pizzas, term, category) <==>
      p in pizzas && ContainsIgnoreCase(p.name, term) && (category == "all" || p.category == category)
  {
    if p in pizzas && MatchesSearch(p, term) && MatchesCategory(p, category) {
      var i :| 0 <= i < |pizzas| && pizzas[i] == p;
    }
  }

  /** With no search term and every category, the whole menu is listed, in order. */
  lemma NoFilterListsAll(pizzas: seq<Pizza>)
    ensures FilteredPizzas(pizzas, "", "all") == pizzas
  {
    forall i | 0 <= i < |pizzas| ensures MatchesSearch(pizzas[i], "") {
      EmptySearchMatches(pizzas[i].name);
    }
    FilterAll(pizzas, (p: Pizza) => MatchesSearch(p, "") && MatchesCategory(p, "all"));
  }

  /** The category filters of the offered categories split the menu without overlap. */
  lemma CategoriesDisjoint(pizzas: seq<Pizza>, c1: string, c2: string, p: Pizza)
    requires c1 != c2 && c1 != "all" && c2 != "all"
    ensures !(p in FilteredPizzas(pizzas, "", c1) && p in FilteredPizzas(pizzas, "", c2))
  {
  }

  /** The first loaded pizza with this id. */
  function FindPizza(pizzas: seq<Pizza>, id: string): Option<Pizza> {
    FindBy(pizzas, (p: Pizza) => p.dbId, id)
  }

  /**
    `toggleAvailability(id, current)`: the pizza put back with `isAvailable`
    set to `!current`, or None (nothing sent) when no loaded pizza has the id.
  */
  function ToggleAvailability(pizzas: seq<Pizza>, id: string, current: bool): (r: Option<Pizza>)
    ensures r.None? <==> FindPizza(pizzas, id).None?
    ensures r.Some? ==> r.value.isAvailable == !current
  {
    match FindPizza(pizzas, id)
    case None => None
    case Some(p) => Some(p.(isAvailable := !current))
  }

  /** Toggling from the switch flips availability and nothing else. */
  lemma ToggleFlipsOnlyAvailability(pizzas: seq<Pizza>, id: string)
    requires FindPizza(pizzas, id).Some?
    ensures var p := FindPizza(pizzas, id).value;
      var t := ToggleAvailability(pizzas, id, p.isAvailable).value;
      && t.isAvailable == !p.isAvailable
      && t.(isAvailable := p.isAvailable) == p
  {
  }

  /** Toggling twice, each time from the stored value, puts the pizza back as it was. */
  lemma ToggleTwiceRestores(p: Pizza)
    ensures var once := ToggleAvailability([p], p.dbId, p.isAvailable).value;
      ToggleAvailability([once], p.dbId, once.isAvailable) == Some(p)
  {
  }
}
