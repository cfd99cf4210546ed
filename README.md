# Pizza shop storefront and admin rules, modelled in Dafny

This project models the logic of a pizza-ordering web shop. Customers browse a
menu, build pizzas (size and extras), keep them in a client-side cart and check
out. Staff manage orders, delivery areas, pizzas and accounts from admin pages,
and a dashboard endpoint aggregates statistics. The model covers:

- the cart engine, a class whose `items` list is replaced by add, remove,
  update-quantity and clear (`cart_engine.dfy`);
- the three versions of pricing:
  - the order page: size multiplier, extras, unit and total price
    (`order_page.dfy`);
  - the checkout page, which rounds to cents with `Round2` (`checkout.dfy`,
    `money.dfy`);
  - the cart page, which does not round (`cart_page.dfy`);
- the checkout guard chain, the order items it sends and clear-on-success
  (`checkout.dfy`);
- the order page's state: the extras toggle, quantity, the customer guard, the
  cart line and the Order-Now payload (`order_page.dfy`);
- the dashboard overview (`stats.dfy`):
  - the counters;
  - the five most recent orders;
  - the per-name quantity table, filled by a loop into a map;
  - the top five pizzas.

  The two sorts are one in-place stable insertion sort on an array
  (`sorting.dfy`), proved equal to a functional stable sort.
- the admin lists of orders, areas, pizzas and users: search and filter
  predicates, comma-list parsing and its round trip with `join(", ")`,
  single-field toggles, role and status partitions, counters and "+n more"
  badges (`admin_*.dfy`, `text.dfy`);
- the storefront menu's filter and "Add to Cart" line (`menu.dfy`);
- the profile page: orders by email, the active/past split, and the details
  form's edit, cancel and save (`profile.dfy`).

Records follow the Mongoose schemas under `backend/models` (`records.dfy`).
`_id` is named `dbId`. A JSON key that may be absent is an `Option`, with None
standing for `undefined`. Money is `real`. Timestamps are integers in
milliseconds.

JavaScript idioms are written out as follows:

- `reduce` is a left fold (`Util.SumReal`, `Util.SumInt`).
- `filter` is `Util.Filter`.
- `toFixed(2)` is `Money.Round2` (half-up on the magnitude) or
  `Money.FormatFixed2` for the text.
- An empty string is falsy, so `!x` is `|x| == 0`.
- `find(...) || sizes[1]` falls back to the Medium entry.
- `extra?.price || 0` makes an unknown extra cost 0.

Behaviours of the cart and the pages that a reader might not expect:

- `updateQuantity(id, q)` sets `q` on every line with that id, whatever its
  size or extras (`CartEngine.SetQuantityEveryLineOfId`). It enforces no
  lower bound.
- Cart slots compare extras through `JSON.stringify`. Extras in a different
  order open a new line, and no extras (`undefined`) is not the empty list
  (`CartEngine.ExtrasOrderOpensNewLine`,
  `CartEngine.MissingExtrasIsNotEmptyExtras`).
- The menu builds cart lines from `pizza.id`, and the admin user page passes
  `user.id` to its status toggle. The served documents carry neither key
  (see Findings).

## Model

| member | source | states |
|---|---|---|
| CartEngine.FindSlot | frontend/hooks/use-cart.tsx:29-31 | the index found is the first line whose (id, size, serialised extras) equals the key; None exactly when no line has it |
| CartEngine.AddMergesIntoFirstMatch | frontend/hooks/use-cart.tsx:29-36 | with a matching line, the first match gains the item's quantity; the length and every other line are unchanged |
| CartEngine.AddAppendsNewSlot | frontend/hooks/use-cart.tsx:37 | with no matching line, the item is appended at the end and earlier lines are untouched |
| CartEngine.AddTotalQuantity | frontend/hooks/use-cart.tsx:29-37 | in either branch the total quantity grows by exactly the item's quantity |
| CartEngine.AddSubtotal | frontend/hooks/use-cart.tsx:29-37 | the subtotal grows by the item's quantity at the unit price of the line that absorbs it (a merged item keeps the existing price) |
| CartEngine.MergedLineAmount | frontend/hooks/use-cart.tsx:34 | raising a line's quantity by q raises its amount by unitPrice × q |
| CartEngine.AddKeepsSlotsUnique | frontend/hooks/use-cart.tsx:27-38 | adding keeps "no two lines share (id, size, extras)" |
| CartEngine.RemoveKeepsSlotsUnique | frontend/hooks/use-cart.tsx:41-43 | removing keeps slot uniqueness |
| CartEngine.RemoveDropsExactlyId | frontend/hooks/use-cart.tsx:41-43 | every line with the id is gone, every other line stays, in order |
| CartEngine.RemoveAbsentId | frontend/hooks/use-cart.tsx:41-43 | removing an id no line has leaves the list unchanged |
| CartEngine.SetQuantityKeepsSlots | frontend/hooks/use-cart.tsx:45-49 | updating a quantity keeps the length and every line's key, hence slot uniqueness |
| CartEngine.SetQuantityEveryLineOfId | frontend/hooks/use-cart.tsx:45-49 | every line with the id, whatever its size or extras, gets exactly q; every other line is unchanged |
| CartEngine.ExtrasOrderOpensNewLine | frontend/hooks/use-cart.tsx:30 | extras in another order are another slot |
| CartEngine.MissingExtrasIsNotEmptyExtras | frontend/hooks/use-cart.tsx:30 | a line without extras never merges with one whose extras are [] |
| CartEngine.Cart.constructor | frontend/hooks/use-cart.tsx:25 | the cart starts empty and valid |
| CartEngine.Cart.AddToCart | frontend/hooks/use-cart.tsx:27-39 | the new list is AddLine of the old; slot uniqueness is kept; the total quantity grows by the item's quantity |
| CartEngine.Cart.RemoveFromCart | frontend/hooks/use-cart.tsx:41-43 | the new list is the old without the id's lines; no line with the id is left |
| CartEngine.Cart.UpdateQuantity | frontend/hooks/use-cart.tsx:45-49 | the new list is SetQuantity of the old; the length and every key are unchanged |
| CartEngine.Cart.ClearCart | frontend/hooks/use-cart.tsx:51 | the list is empty |
| Money.Round2 | frontend/app/checkout/page.tsx:46-47 | the rounded value is a whole number of cents within half a cent of the input |
| Money.Round2NonNegative | frontend/app/checkout/page.tsx:46-47 | rounding a non-negative amount gives a non-negative amount |
| Money.Round2OfCents | frontend/app/checkout/page.tsx:46-47 | a whole number of cents is left unchanged |
| Money.Round2Idempotent | frontend/app/checkout/page.tsx:46-47 | rounding twice is rounding once |
| Money.FormatFixed2 | backend/routes/stats.js:29 | the text ends in a point and two digits, with a leading minus exactly for negative amounts; the whole part and the two digits read back as the number of cents `Round2` keeps |
| Checkout.CheckoutTax | frontend/app/checkout/page.tsx:44-46 | the tax is a whole number of cents: subtotal × 0.08 rounded to the nearest cent, so within half a cent of it |
| Checkout.CheckoutTotal | frontend/app/checkout/page.tsx:44-47 | the total is a whole number of cents: subtotal + 3.99 + the rounded tax, rounded to the nearest cent |
| Checkout.TotalOfWholeCents | frontend/app/checkout/page.tsx:44-47 | when the subtotal is a whole number of cents, the total is exactly subtotal + 3.99 + tax |
| Checkout.TwoPizzasScenario | frontend/app/checkout/page.tsx:44-47 | two Large Pepperoni pizzas at 16.49 give subtotal 32.98, tax 2.64 and total 39.61 |
| Checkout.FindArea | frontend/app/checkout/page.tsx:84 | the area found is the first one with that name; None exactly when none has it |
| Checkout.Validate | frontend/app/checkout/page.tsx:87-118 | no error exactly when all required fields are filled, the first area of that name is active, card details are complete for card payment, and the cart is not empty |
| Checkout.GuardPrecedence | frontend/app/checkout/page.tsx:87-118 | each error is reported only when every earlier guard passed: missing information, then area, then card, then empty cart |
| Checkout.CashSkipsCard | frontend/app/checkout/page.tsx:103 | with cash payment the card fields never matter |
| Checkout.CardNameNotRequired | frontend/app/checkout/page.tsx:103 | the name on the card never affects validation |
| Checkout.FirstAreaDecides | frontend/app/checkout/page.tsx:84-95 | when two areas share a name, the first decides, even if inactive |
| Checkout.OrderItems | frontend/app/checkout/page.tsx:127-134 | the items are mapped line for line, in order |
| Checkout.OrderItemsAddUp | frontend/app/checkout/page.tsx:127-135 | the sent items' price × quantity add up to the subtotal |
| Checkout.Submit | frontend/app/checkout/page.tsx:86-142 | a payload is sent exactly when validation passes |
| Checkout.SentPayload | frontend/app/checkout/page.tsx:121-142 | a sent order is "pending" with fee 3.99 whatever the area's fee, one item per line (at least one), items adding up to the subtotal, tax equal to `Round2(subtotal × 0.08)` and total equal to `Round2(subtotal + fee + tax)` (each within half a cent of its unrounded value), and the chosen area and payment method |
| Checkout.PlaceOrder | frontend/app/checkout/page.tsx:86-159 | the cart is emptied only when an order was sent and the response succeeded; otherwise it is unchanged |
| CartPage.CartAndCheckoutAgree | frontend/app/cart/page.tsx:18-21 | the cart page's unrounded tax rounds to checkout's tax, and the two totals differ by at most a cent |
| CartPage.Render | frontend/app/cart/page.tsx:18-41 | the empty view shows exactly when the cart is empty; otherwise the lines and total = subtotal + fee + tax |
| CartPage.MinusRequest | frontend/app/cart/page.tsx:82-83 | minus is disabled at quantity ≤ 1 and otherwise requests quantity − 1 ≥ 1 |
| CartPage.SetQuantityKeepsPositive | frontend/app/cart/page.tsx:82-91 | setting a positive quantity keeps every quantity positive |
| CartPage.MinusMovesSiblings | frontend/app/cart/page.tsx:82 | minus on one size of a pizza also rewrites its other sizes' lines |
| CartPage.ClickMinus | frontend/app/cart/page.tsx:82-83 | minus leaves the cart unchanged when disabled, else updates the line's id; positive quantities stay positive |
| CartPage.ClickPlus | frontend/app/cart/page.tsx:91 | plus sets quantity + 1 on the line's id; positive quantities stay positive |
| CartPage.ClickRemove | frontend/app/cart/page.tsx:104 | remove drops every line sharing the line's id |
| CartPage.ClickClear | frontend/app/cart/page.tsx:121 | clear leaves the empty view |
| Util.FindBy | frontend/app/order/page.tsx:79-82 | `find` by a key: the element found is the first one with that key; None exactly when none has it (the size and extra lookups here, and the `_id` lookups of the four admin pages) |
| OrderPage.SizeMultipliers | frontend/app/order/page.tsx:64-80 | Small 0.8, Medium 1.0, Large 1.3, Extra Large 1.6 |
| OrderPage.SizeFallback | frontend/app/order/page.tsx:80 | any other size name falls back to Medium's 1.0 |
| OrderPage.ExtraPrice | frontend/app/order/page.tsx:70-84 | an extra costs its table price when listed and 0 otherwise, never negative |
| OrderPage.UnitPriceNonNegative | frontend/app/order/page.tsx:80-85 | with a non-negative base price, the unit price is at least the extras' price, itself never negative |
| OrderPage.ExtrasPriceNonNegative | frontend/app/order/page.tsx:82-84 | the extras' sum is never negative |
| OrderPage.LargePepperoniScenario | frontend/app/order/page.tsx:81-86 | a 10.00 pizza, Large, with Pepperoni costs 16.49 each and 32.98 for two |
| OrderPage.ToggleMembership | frontend/app/order/page.tsx:88-92 | after a toggle the name is selected exactly when it was not; other names are unaffected |
| OrderPage.ToggleNoDup | frontend/app/order/page.tsx:88-92 | toggling never selects a name twice |
| OrderPage.ToggleTwice | frontend/app/order/page.tsx:88-92 | toggling twice gives back the same selection (as a multiset; exactly when the name was absent) |
| OrderPage.ToggleExtrasPrice | frontend/app/order/page.tsx:82-92 | a toggle adds or subtracts exactly that extra's price |
| OrderPage.SumOfPermutation | frontend/app/order/page.tsx:82-84 | the extras' price does not depend on their order |
| OrderPage.Decrement | frontend/app/order/page.tsx:255 | the result is at least 1, and q − 1 whenever q > 1 |
| OrderPage.OrderLineAmount | frontend/app/order/page.tsx:86-111 | the line "Add to Cart" builds is priced per pizza at the unit price, so its amount in the cart equals the displayed total price |
| OrderPage.OrderNowAmounts | frontend/app/order/page.tsx:127-156 | one item priced at the unit price; subtotal = the displayed total price, unrounded; fee 3.99, tax = subtotal × 0.08, total = subtotal + 3.99 + tax; status "pending", payment "cash" |
| OrderPage.OrderNowEmail | frontend/app/order/page.tsx:127-131 | the email sent is the stored account's, or "" when none is stored |
| OrderPage.OrderForm.constructor | frontend/app/order/page.tsx:28-30 | Medium, quantity 1, no extras |
| OrderPage.OrderForm.SelectSize | frontend/app/order/page.tsx:212 | the size becomes the one clicked and nothing else changes |
| OrderPage.OrderForm.ToggleExtra | frontend/app/order/page.tsx:88-92 | the selection becomes the toggle of the old one, and stays free of repeats |
| OrderPage.OrderForm.DecrementQuantity | frontend/app/order/page.tsx:255 | the quantity becomes max(1, q − 1) |
| OrderPage.OrderForm.IncrementQuantity | frontend/app/order/page.tsx:261 | the quantity becomes q + 1 |
| OrderPage.OrderForm.AddToCart | frontend/app/order/page.tsx:95-111 | refused, with the cart unchanged, exactly when name, phone or address is empty; otherwise the line is added |
| OrderPage.OrderForm.OrderNow | frontend/app/order/page.tsx:119-156 | no payload exactly when name, phone or address is empty; otherwise the Order-Now payload |
| Stats.OrdersToday | backend/routes/stats.js:15-17 | the count never exceeds the number of orders |
| Stats.OrdersTodayAppend | backend/routes/stats.js:17 | an order counts exactly when created at or after midnight |
| Stats.OrdersTodayComplement | backend/routes/stats.js:17 | the orders of today and the older ones together are all orders |
| Stats.RevenueAppend | backend/routes/stats.js:18 | a further order adds exactly its total, whatever its status or date |
| Stats.ActiveComplement | backend/routes/stats.js:19 | active and inactive accounts together are all accounts |
| Stats.ActiveCountsStaff | backend/routes/stats.js:19 | an active staff account is counted among "active customers" |
| Stats.ItemTexts | backend/routes/stats.js:28 | one "q x name" text per item, in order |
| Stats.RecentOrdersNewestFirst | backend/routes/stats.js:22-32 | min(5, n) summaries, ordered by creation time, newest first |
| Stats.RecentOrdersFromStore | backend/routes/stats.js:22-32 | every summary is that of a stored order |
| Stats.RecentOrdersOmitOlder | backend/routes/stats.js:22-24 | an order left out is no newer than every order shown |
| Stats.NewestOrderFirst | backend/routes/stats.js:23-24 | the first summary is a newest order |
| Stats.ItemsTextPieces | backend/routes/stats.js:28 | with comma-free names, the items text splits back into one piece per item |
| Stats.NamesFacts | backend/routes/stats.js:34-40 | the dictionary's keys in first-seen order: each name once, and exactly the names of the items |
| Stats.EntryAt | backend/routes/stats.js:37-40 | one entry per key, in key order, carrying that name's total quantity |
| Stats.TallyAbsent | backend/routes/stats.js:37 | a name never ordered tallies 0 |
| Stats.TallyStep | backend/routes/stats.js:37 | one more item adds its quantity to its name's tally only, and appends a name seen for the first time |
| Stats.TalliesSumToQuantity | backend/routes/stats.js:34-40 | the tallies add up to the total quantity of all items |
| Stats.PopularPizzasSpec | backend/routes/stats.js:40-43 | at most five entries, non-increasing counts, each equal to the name's tally, and every name left out tallies no more than those shown |
| Stats.PopularTiesKeepFirstSeenOrder | backend/routes/stats.js:40-41 | names with equal counts keep the order in which they were first seen |
| Stats.TallyStateStep | backend/routes/stats.js:35-38 | one loop step keeps the map equal to the tallies of the items seen so far |
| Stats.CounterOfTallies | backend/routes/stats.js:34-39 | the map the loops build holds every name's tally |
| Stats.CountPizzas | backend/routes/stats.js:34-39 | the nested loops leave exactly the names seen, in first-seen order, each with its tally |
| Stats.CountItems | backend/routes/stats.js:36-38 | the inner loop over one order's items leaves the dictionary bumped once for each of them, in order |
| Stats.EntryListIsEntries | backend/routes/stats.js:40 | the entries read from the map are the specification's entries |
| Stats.SortOrders | backend/routes/stats.js:23 | the in-place sort gives the stable newest-first order |
| Stats.TopPizzas | backend/routes/stats.js:40-43 | the computed list is the specified popular list |
| Stats.ComputeOverview | backend/routes/stats.js:15-51 | the response equals the specified overview |
| Stats.OverviewParts | backend/routes/stats.js:20-43 | pizzaTypes is the number of pizzas; the popular list is computed after the in-place sort of the orders |
| Sorting.InsertPermutation | backend/routes/stats.js:23-41 | insertion keeps the elements |
| Sorting.InsertSorted | backend/routes/stats.js:23-41 | insertion keeps the order descending by key |
| Sorting.SortDescPermutation | backend/routes/stats.js:23-41 | sorting is a permutation |
| Sorting.SortDescSorted | backend/routes/stats.js:23-41 | the result is descending by key |
| Sorting.SortDescStable | backend/routes/stats.js:23-41 | elements with equal keys keep their relative order |
| Sorting.TopKeys | backend/routes/stats.js:24-42 | no element outside the first n has a larger key than one inside |
| Sorting.InsertInPlace | backend/routes/stats.js:23-41 | one insertion step on the array equals the functional insert |
| Sorting.SortInPlace | backend/routes/stats.js:23-41 | the array ends as the functional stable sort of its old contents |
| Text.Trim | frontend/app/admin/areas/page.tsx:63 | the result is a slice of the input with no white space at either end and only white space before and after it in the input |
| Text.TrimUnique | frontend/app/admin/areas/page.tsx:63 | any slice with those two properties is the trimmed text, so the contract of Trim fixes `trim()` exactly |
| Text.TrimKeepsAbsent | frontend/app/admin/areas/page.tsx:63 | trimming never brings in a character the input lacks, so a piece split at commas stays comma-free |
| Text.Split | frontend/app/admin/areas/page.tsx:62 | at least one piece and no piece holds the separator |
| Text.JoinSplit | frontend/app/admin/areas/page.tsx:62 | joining the pieces with the separator rebuilds the text |
| Text.ParseList | frontend/app/admin/areas/page.tsx:61-64 | every code parsed is non-empty, trimmed and comma-free |
| Text.ParseJoinRoundTrip | frontend/app/admin/areas/page.tsx:61-64 | for a list of non-empty, trimmed, comma-free codes, joining with ", " (as the edit form does) and parsing again gives back exactly that list |
| Text.ParseIsStable | frontend/app/admin/areas/page.tsx:61-64 | parsing what was parsed and joined changes nothing |
| Text.ParseCommaPair | frontend/app/admin/pizzas/page.tsx:75-78 | a text holding one comma parses into its two sides |
| Text.NatToStringValue | frontend/app/admin/areas/page.tsx:340 | the count written in a "+n more" badge reads back as n |
| Text.Truncate | frontend/app/admin/areas/page.tsx:333-342 | the first min(k, n) strings, and "+(n − k) more" exactly when n > k |
| Text.TruncateAccountsForAll | frontend/app/admin/areas/page.tsx:333-342 | the shown strings plus the number in the badge account for all n |
| AdminOrders.StatusSet | frontend/app/admin/orders/page.tsx:15-21 | the offered values are exactly pending, preparing, out_for_delivery, delivered, cancelled, without repeats |
| AdminOrders.ListedIff | frontend/app/admin/orders/page.tsx:44-51 | listed exactly when the id or name contains the term ignoring case, or the phone contains it, and the status filter is "all" or equal |
| AdminOrders.NoFilterListsAll | frontend/app/admin/orders/page.tsx:44-51 | no term and "all" list every order in order |
| AdminOrders.UpdateOrderStatus | frontend/app/admin/orders/page.tsx:53-60 | nothing is sent exactly when no loaded order has the id |
| AdminOrders.UpdateChangesOnlyStatus | frontend/app/admin/orders/page.tsx:53-60 | the record sent is a loaded order with that id and only the status replaced |
| AdminOrders.UpdateToSameStatus | frontend/app/admin/orders/page.tsx:53-60 | sending the current status sends the order unchanged |
| AdminOrders.AnyTransition | frontend/app/admin/orders/page.tsx:53-60 | any listed status can be set from any listed status |
| AdminOrders.PendingCount | frontend/app/admin/orders/page.tsx:84 | the pending count is at most the number of orders |
| AdminOrders.StatusChangeCounters | frontend/app/admin/orders/page.tsx:83-84 | once stored, a status change leaves revenue alone and moves the pending count by the exact ±1 |
| AdminOrders.PendingComplement | frontend/app/admin/orders/page.tsx:84-85 | pending and other orders add up to "Total Orders" |
| AdminOrders.RevenueAppend | frontend/app/admin/orders/page.tsx:83 | revenue of two lists is the sum of their revenues |
| AdminAreas.SubmitArea | frontend/app/admin/areas/page.tsx:53-69 | refused exactly when name, fee or time is empty; every code sent is non-empty, trimmed and comma-free |
| AdminAreas.EditThenSave | frontend/app/admin/areas/page.tsx:105-115 | editing an area and saving it sends back the same name, time, switch and codes |
| AdminAreas.SaveIsStable | frontend/app/admin/areas/page.tsx:105-115 | a saved area edited and saved again sends the same payload |
| AdminAreas.ListedIff | frontend/app/admin/areas/page.tsx:45-49 | listed exactly when the name contains the term ignoring case or some code contains it |
| AdminAreas.EmptySearchListsAll | frontend/app/admin/areas/page.tsx:45-49 | an empty search lists every area in order |
| AdminAreas.CodesMatchCaseSensitively | frontend/app/admin/areas/page.tsx:47-48 | "ab1" does not find code "AB1" |
| AdminAreas.ToggleStatus | frontend/app/admin/areas/page.tsx:123-132 | nothing is sent exactly when no loaded area has the id; otherwise isActive is !current |
| AdminAreas.ToggleFlipsOnlySwitch | frontend/app/admin/areas/page.tsx:123-132 | the toggle negates isActive and keeps fee, time, codes and counts |
| AdminAreas.ToggleTwiceRestores | frontend/app/admin/areas/page.tsx:123-132 | two toggles restore the area |
| AdminAreas.ActiveCount | frontend/app/admin/areas/page.tsx:247 | the active count is at most the number of areas |
| AdminAreas.ToggleCounters | frontend/app/admin/areas/page.tsx:247-272 | once stored, a toggle moves the active count by exactly one and leaves the order total alone |
| AdminAreas.PostalBadges | frontend/app/admin/areas/page.tsx:333-342 | at most the first three codes, with a "more" badge exactly when there are over three |
| AdminAreas.FiveCodes | frontend/app/admin/areas/page.tsx:333-342 | five codes show as the first three and "+2 more" |
| AdminPizzas.SubmitPizza | frontend/app/admin/pizzas/page.tsx:67-83 | refused exactly when name, description, price or category is empty; every ingredient sent is non-empty, trimmed and comma-free |
| AdminPizzas.PayloadCopiesForm | frontend/app/admin/pizzas/page.tsx:75-83 | the payload replaces price and ingredients with their parsed values and copies every other field |
| AdminPizzas.EmptyFormRefused | frontend/app/admin/pizzas/page.tsx:104-118 | a reset form is refused |
| AdminPizzas.EditThenSave | frontend/app/admin/pizzas/page.tsx:125-141 | editing a pizza and saving sends back the same fields and ingredients |
| AdminPizzas.CommaIngredientSplits | frontend/app/admin/pizzas/page.tsx:75-78 | an ingredient holding a comma comes back as two |
| AdminPizzas.ListedIff | frontend/app/admin/pizzas/page.tsx:59-63 | listed exactly when the name contains the term ignoring case and the category is "all" or equal |
| AdminPizzas.NoFilterListsAll | frontend/app/admin/pizzas/page.tsx:59-63 | no term and "all" list every pizza in order |
| AdminPizzas.CategoriesDisjoint | frontend/app/admin/pizzas/page.tsx:43-63 | two different category filters never list the same pizza |
| AdminPizzas.ToggleAvailability | frontend/app/admin/pizzas/page.tsx:149-158 | nothing is sent exactly when no loaded pizza has the id; otherwise isAvailable is !current |
| AdminPizzas.ToggleFlipsOnlyAvailability | frontend/app/admin/pizzas/page.tsx:149-158 | the toggle negates isAvailable and nothing else |
| AdminPizzas.ToggleTwiceRestores | frontend/app/admin/pizzas/page.tsx:149-158 | two toggles restore the pizza |
| AdminUsers.PartitionExact | frontend/app/admin/users/page.tsx:59-60 | each account lands in exactly one tab and the tabs together hold all |
| AdminUsers.ListedIff | frontend/app/admin/users/page.tsx:77-85 | listed exactly when name or email contains the term ignoring case or the phone contains it, and role and status are "all" or equal |
| AdminUsers.NoFilterListsAll | frontend/app/admin/users/page.tsx:77-85 | no term and "all" twice list the whole tab |
| AdminUsers.CustomerFilterOnStaffTab | frontend/app/admin/users/page.tsx:60-85 | the "customer" role filter lists nobody on the staff tab |
| AdminUsers.SubmitUser | frontend/app/admin/users/page.tsx:89 | refused exactly when name, email or role is empty; otherwise the form is sent |
| AdminUsers.EditThenSave | frontend/app/admin/users/page.tsx:131-141 | editing an account and saving sends back its editable fields |
| AdminUsers.SetPermission | frontend/app/admin/users/page.tsx:288-299 | checking appends the value; unchecking removes every copy and nothing else |
| AdminUsers.ClickKeepsNoDup | frontend/app/admin/users/page.tsx:288-299 | clicking keeps the list free of repeats |
| AdminUsers.ClickTwice | frontend/app/admin/users/page.tsx:288-299 | two clicks on an absent value give the list back |
| AdminUsers.NextStatus | frontend/app/admin/users/page.tsx:153-163 | "active" goes to "inactive", anything else to "active" |
| AdminUsers.ToggleStatus | frontend/app/admin/users/page.tsx:153-163 | nothing is sent exactly when neither tab has the id; otherwise the account with the next status |
| AdminUsers.ToggleFromListedStates | frontend/app/admin/users/page.tsx:153-163 | from "active" to "inactive" and back; any other state becomes "active" |
| AdminUsers.ToggleTwiceRestores | frontend/app/admin/users/page.tsx:153-163 | two toggles restore an account in one of the two states |
| AdminUsers.StatusClick | frontend/app/admin/users/page.tsx:468 | the status button as written passes `user.id`: nothing is sent exactly when the account has no `id` key or no account's `_id` equals it; otherwise it is `toggleStatus` on that key |
| AdminUsers.StatusClickSendsNothing | frontend/app/admin/users/page.tsx:566 | when no loaded account carries `id`, clicking the status button of any listed account sends nothing |
| AdminUsers.StatusClickByIdToggles | frontend/app/admin/users/page.tsx:153-163 | keyed by `_id`, a click on a listed account always sends an account with that id and the next status; with distinct ids it is the clicked account with only its status changed |
| Records.ActiveCount | frontend/app/admin/users/page.tsx:180-182 | the number of accounts whose status is "active", at most the number of accounts; the users page counts the customers tab with it and the overview route every account |
| AdminUsers.MissingSpentAddsNothing | frontend/app/admin/users/page.tsx:183 | accounts without totalSpent add 0 to the revenue |
| AdminUsers.CountersIgnoreStaff | frontend/app/admin/users/page.tsx:180-183 | staff accounts never reach the customer counters |
| AdminUsers.CaptionIn | frontend/app/admin/users/page.tsx:20-33 | no caption exactly when no option has the value |
| AdminUsers.PermissionBadges | frontend/app/admin/users/page.tsx:541-558 | one badge exactly when "all" is held; otherwise the first two captions and "+(n − 2) more" exactly when n > 2 |
| AdminUsers.AllShowsOneBadge | frontend/app/admin/users/page.tsx:541-558 | a list holding "all" shows one badge however long it is |
| Menu.FilteredPizzas | frontend/app/menu/page.tsx:29-40 | every pizza listed is available |
| Menu.ListedIff | frontend/app/menu/page.tsx:29-40 | listed exactly when available and search, type, spice and size all pass |
| Menu.NoFilterListsAvailable | frontend/app/menu/page.tsx:29-40 | no term and "all" filters list the available pizzas in order |
| Menu.TypeFiltersSplit | frontend/app/menu/page.tsx:34-35 | "veg" and "non-veg" list disjoint parts that together are the "all" list |
| Menu.SizeFilterNeedsSize | frontend/app/menu/page.tsx:38 | pizzas without a size are never listed under a size filter |
| Menu.SizeIgnoresCase | frontend/app/menu/page.tsx:38 | "large" finds a pizza of size "Large" |
| Menu.MenuLine | frontend/app/menu/page.tsx:160-166 | as written: the line's id is the pizza's `id` key, no size or extras, quantity 1 at the listed price |
| Menu.MenuLinesMerge | frontend/app/menu/page.tsx:161 | two different pizzas added from the menu become one line of quantity 2 at the first one's price |
| Menu.RemoveMenuLineRemovesAll | frontend/app/menu/page.tsx:161 | removing one menu line removes every line added from the menu |
| Menu.MenuLineById | frontend/app/menu/page.tsx:160-166 | corrected: the line's id is the pizza's database id |
| Menu.MenuLinesByIdSeparate | frontend/app/menu/page.tsx:160-166 | different pizzas make two lines at their own prices; the same pizza twice makes one line of two |
| Menu.AddToCartAsWritten | frontend/app/menu/page.tsx:160-166 | as written: the cart gains the `pizza.id`-keyed line and one more pizza; with a menu line already in the cart, a pizza without an `id` key adds no line |
| Menu.AddToCart | frontend/app/menu/page.tsx:160-166 | the cart gains the corrected line and one more pizza |
| Profile.UserOrders | frontend/app/profile/page.tsx:29 | every order kept carries the account's email |
| Profile.UserOrdersIff | frontend/app/profile/page.tsx:29 | an order is kept exactly when it carries the account's email |
| Profile.ActivePastPartition | frontend/app/profile/page.tsx:40-41 | active and past are disjoint and together are all the account's orders |
| Profile.StatusesSplit | frontend/app/profile/page.tsx:40-41 | pending, preparing and out_for_delivery are active; delivered and cancelled are past |
| Profile.FormOf | frontend/app/profile/page.tsx:24-51 | each field is the account's, or "" when the account lacks it |
| Profile.ProfileCard.Edit | frontend/app/profile/page.tsx:43-46 | editing starts with the form filled from the account |
| Profile.ProfileCard.Cancel | frontend/app/profile/page.tsx:48-51 | cancel ends editing and resets the form to the account |
| Profile.ProfileCard.Save | frontend/app/profile/page.tsx:53-70 | on success the account is replaced and editing ends; on failure nothing changes |
| Profile.EditTypeCancel | frontend/app/profile/page.tsx:43-51 | whatever is typed between edit and cancel, the form ends as the account holds it |

## Left out

- Network and storage: `fetch`, the server's responses, `localStorage`, toasts, dialogs, routing and rendering are left out. A server reply enters the model as a parameter (`responseOk`, the saved account, the loaded lists).
- `parseFloat` and `Number.prototype.toString`: the submit and edit functions take the parsed number and the price or fee text as parameters.
- Clocks: `new Date()`, `setHours(0,0,0,0)` and `toLocaleString` are left out. Midnight and "now" are integer parameters, and the Order-Now timestamp text is a parameter.
- IEEE-754 arithmetic: money is `real`. `Money.Round2` rounds half up on exact values, so float artefacts of `toFixed` are not modelled.
- Averages that divide by a list length (NaN on an empty list) are left out.
- `Promise.all` in the overview route is left out; the three lists arrive as parameters.
- `Object.entries` puts integer-like keys first; pizza names are assumed non-numeric. Names equal to `Object.prototype` keys are not modelled either.
- Deleting orders, areas, pizzas and accounts is left out. Those are server calls followed by a reload.
- The counters after an update assume the server stored the record the page sent (`AdminOrders.StatusChangeCounters`, `AdminAreas.ToggleCounters`).
- AdminUsers.PermissionBadges: a permission value without an option shows as None; its rendered text is not modelled.
- Profile.ProfileCard.Save: what the server stores and returns is a parameter, and the order list is not reloaded after a save, as on the page.
- Text.Lower: only the ASCII letters A-Z are folded, and the result keeps the length. JavaScript's `toLowerCase` folds every Unicode letter ("É" to "é") and can lengthen a string ("İ" becomes two UTF-16 units), so a search on such letters that finds a record on the page may find nothing in the model.
- Login pages, the navbar badge and the static pages are not part of this model.

## Findings

| source | as written | input that shows it | evidently intended | confidence | as-written member | corrected member |
|---|---|---|---|---|---|---|
| frontend/app/menu/page.tsx:161 | the menu's cart line takes its id from `pizza.id`, a key the served pizza documents do not carry (the schema in backend/models/Pizza.js declares none and adds no virtuals to JSON), so every menu line has an undefined id, size and extras | add pizza A, then a different pizza B, from the menu: the cart holds one line "A" of quantity 2 priced at A's price, and removing it removes every menu line | the database id `_id`, as every other page uses, giving each pizza its own cart line | not executed | Menu.MenuLinesMerge | Menu.MenuLinesByIdSeparate |
| frontend/app/admin/users/page.tsx:468 | both status buttons call `toggleStatus(user.id, user.status)` (and `admin.id` at :566), while `toggleStatus` looks the account up by `u._id === id` (:155); the served account documents carry no `id` key (backend/models/User.js declares none and adds no virtuals to JSON), so the lookup finds nothing and the function returns before sending | click "Active" on any customer or staff row: no request is made and the status never changes | pass `user._id`, as the area, pizza and order pages do, so the click flips the account between "active" and "inactive" | not executed | AdminUsers.StatusClickSendsNothing | AdminUsers.StatusClickByIdToggles |
