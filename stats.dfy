/**
  The dashboard overview of backend/routes/stats.js (`GET /overview`): four
  counters, the five most recent orders as display summaries, and the five
  pizzas with the largest ordered quantity.

  The database reads become the parameters `orders`, `users` and `pizzas`,
  and the clock becomes `midnight`, the start of the current local day in
  milliseconds.
*/
module Stats {
  import opened Util
  import opened Text
  import opened Money
  import opened Records
  import opened Sorting

  /** One entry of `recentOrders`. */
  datatype OrderSummary = OrderSummary(
    id: string,
    customer: string,
    items: string,
    total: string,
    status: string,
    time: int)

  /** One entry of `popularPizzas`: a pizza name and the quantity ordered under it. */
  datatype PizzaTally = PizzaTally(name: string, orders: int)

  /** The JSON body of the response. */
  datatype Overview = Overview(
    totalRevenue: real,
    ordersToday: nat,
    activeCustomers: nat,
    pizzaTypes: nat,
    recentOrders: seq<OrderSummary>,
    popularPizzas: seq<PizzaTally>)

  function CreatedAt(o: Order): int {
    o.createdAt
  }

  function TallyCount(e: PizzaTally): int {
    e.orders
  }

  /** `o.total || 0`: the stored total is always a number, so this is the total. */
  function OrderTotal(o: Order): real {
    o.total
  }

  function CreatedSince(midnight: int): Order -> bool {
    (o: Order) => o.createdAt >= midnight
  }

  function CreatedBefore(midnight: int): Order -> bool {
    (o: Order) => o.createdAt < midnight
  }

  function IsNotActive(u: User): bool {
    u.status != "active"
  }

  /** `ordersToday`: orders created at or after midnight. */
  function OrdersToday(orders: seq<Order>, midnight: int): (r: nat)
    ensures r <= |orders|
  {
    |Filter(orders, CreatedSince(midnight))|
  }

  /** `totalRevenue`: the sum of all order totals, whatever their status. */
  function TotalRevenue(orders: seq<Order>): real {
    SumReal(orders, OrderTotal)
  }

  /** A new order raises `ordersToday` by one exactly when it was created today. */
  lemma OrdersTodayAppend(orders: seq<Order>, o: Order, midnight: int)
    ensures OrdersToday(orders + [o], midnight) ==
      OrdersToday(orders, midnight) + (if o.createdAt >= midnight then 1 else 0)
  {
    assert (orders + [o])[..|orders|] == orders;
  }

  /** Every order is counted today or created before midnight, never both. */
  lemma OrdersTodayComplement(orders: seq<Order>, midnight: int)
    ensures OrdersToday(orders, midnight) + |Filter(orders, CreatedBefore(midnight))| == |orders|
  {
    FilterSplit(orders, CreatedSince(midnight), CreatedBefore(midnight));
  }

  /** A new order adds exactly its total to the revenue. */
  lemma RevenueAppend(orders: seq<Order>, o: Order)
    ensures TotalRevenue(orders + [o]) == TotalRevenue(orders) + o.total
  {
    assert (orders + [o])[..|orders|] == orders;
  }

  /** Active and not-active accounts together are all accounts. */
  lemma ActiveComplement(users: seq<User>)
    ensures ActiveCount(users) + |Filter(users, IsNotActive)| == |users|
  {
    FilterSplit(users, IsActiveUser, IsNotActive);
  }

  /** An active staff account counts as an active customer. */
  lemma ActiveCountsStaff(u: User)
    requires u.status == "active" && u.role == "staff"
    ensures ActiveCount([u]) == 1
  {
    assert [u][..0] == [];
  }

  // ----- recent orders -----

  /** `` `${i.quantity}x ${i.name}` ``. */
  function ItemText(i: OrderItem): string {
    IntToString(i.quantity) + "x " + i.name
  }

  function ItemTexts(items: seq<OrderItem>): (r: seq<string>)
    ensures |r| == |items|
    ensures forall k :: 0 <= k < |items| ==> r[k] == ItemText(items[k])
  {
    Map(items, ItemText)
  }

  /** The summary line of one order. */
  function Summarize(o: Order): OrderSummary {
    OrderSummary(o.dbId, o.customerName, Join(ItemTexts(o.items), ", "),
      "$" + FormatFixed2(o.total), o.status, o.createdAt)
  }

  /** `recentOrders`: the five newest orders, newest first, summarised. */
  function RecentOrders(orders: seq<Order>): seq<OrderSummary> {
    Map(Take(SortDesc(orders, CreatedAt), 5), Summarize)
  }

  /** At most five summaries, newest first. */
  lemma RecentOrdersNewestFirst(orders: seq<Order>)
    ensures |RecentOrders(orders)| == Min(5, |orders|)
    ensures forall i, j :: 0 <= i < j < |RecentOrders(orders)| ==>
      RecentOrders(orders)[i].time >= RecentOrders(orders)[j].time
  {
    SortDescPermutation(orders, CreatedAt);
    SortDescSorted(orders, CreatedAt);
  }

  /** Every summary shown is the summary of a stored order. */
  lemma RecentOrdersFromStore(orders: seq<Order>)
    ensures forall i :: 0 <= i < |RecentOrders(orders)| ==>
      exists j :: 0 <= j < |orders| && RecentOrders(orders)[i] == Summarize(orders[j])
  {
    var r := RecentOrders(orders);
    SortDescPermutation(orders, CreatedAt);
    forall i | 0 <= i < |r|
      ensures exists j :: 0 <= j < |orders| && r[i] == Summarize(orders[j])
    {
      var j := OriginalPosition(orders, CreatedAt, i);
      assert r[i] == Summarize(orders[j]);
    }
  }

  /** An order left out of the summaries is no newer than any order shown. */
  lemma RecentOrdersOmitOlder(orders: seq<Order>)
    ensures forall j :: 0 <= j < |orders| ==>
      Summarize(orders[j]) in RecentOrders(orders) ||
      forall i :: 0 <= i < |RecentOrders(orders)| ==> orders[j].createdAt <= RecentOrders(orders)[i].time
  {
    var r := RecentOrders(orders);
    var s := SortDesc(orders, CreatedAt);
    SortDescPermutation(orders, CreatedAt);
    SortDescSorted(orders, CreatedAt);
    forall j | 0 <= j < |orders|
      ensures Summarize(orders[j]) in r ||
        forall i :: 0 <= i < |r| ==> orders[j].createdAt <= r[i].time
    {
      var m := SortedPosition(orders, CreatedAt, j);
      if m < |r| {
        assert r[m] == Summarize(orders[j]);
      } else {
        assert forall i :: 0 <= i < |r| ==> r[i].time == s[i].createdAt;
      }
    }
  }

  /** The first summary is of an order at least as new as every stored order. */
  lemma NewestOrderFirst(orders: seq<Order>)
    requires |orders| > 0
    ensures |RecentOrders(orders)| > 0
    ensures forall j :: 0 <= j < |orders| ==> orders[j].createdAt <= RecentOrders(orders)[0].time
  {
    var s := SortDesc(orders, CreatedAt);
    SortDescPermutation(orders, CreatedAt);
    SortDescSorted(orders, CreatedAt);
    forall j | 0 <= j < |orders| ensures orders[j].createdAt <= s[0].createdAt {
      var m := SortedPosition(orders, CreatedAt, j);
    }
  }

  /**
    When no pizza name holds a comma, the items text of a summary splits back
    at its commas into one piece per order line.
  */
  lemma ItemsTextPieces(o: Order)
    requires |o.items| >= 1
    requires forall k :: 0 <= k < |o.items| ==> ',' !in o.items[k].name
    ensures |Split(Summarize(o).items, ',')| == |o.items|
  {
    var xs := ItemTexts(o.items);
    forall k | 0 <= k < |xs| ensures ',' !in xs[k] {
      var q := IntToString(o.items[k].quantity);
      assert xs[k] == q + "x " + o.items[k].name;
      assert forall c :: 0 <= c < |q| ==> q[c] != ',';
    }
    SplitJoinComma(xs);
  }

  // ----- popular pizzas -----

  /** The order lines of all orders, in the order `forEach` visits them. */
  function AllItems(orders: seq<Order>): seq<OrderItem> {
    if |orders| == 0 then []
    else AllItems(orders[..|orders| - 1]) + orders[|orders| - 1].items
  }

  /** The keys of `pizzaCount` in insertion order: each name where it first occurs. */
  function Names(items: seq<OrderItem>): seq<string> {
    if |items| == 0 then []
    else
      var prev := Names(items[..|items| - 1]);
      var n := items[|items| - 1].name;
      if n in prev then prev else prev + [n]
  }

  /** Each name occurs once in the key order, and the keys are exactly the names of the lines. */
  lemma {:induction false} NamesFacts(items: seq<OrderItem>)
    ensures NoDup(Names(items))
    ensures forall k :: 0 <= k < |items| ==> items[k].name in Names(items)
    ensures forall n :: n in Names(items) ==> exists k :: 0 <= k < |items| && items[k].name == n
  {
    if |items| > 0 {
      var p := items[..|items| - 1];
      NamesFacts(p);
      forall n | n in Names(items) ensures exists k :: 0 <= k < |items| && items[k].name == n {
        if n in Names(p) {
          var k :| 0 <= k < |p| && p[k].name == n;
          assert items[k].name == n;
        } else {
          assert items[|items| - 1].name == n;
        }
      }
      forall k | 0 <= k < |items| ensures items[k].name in Names(items) {
        if k < |p| {
          assert p[k].name in Names(p);
        }
      }
    }
  }

  /** `pizzaCount[name]`: the summed quantity of the lines with that name. */
  function Tally(items: seq<OrderItem>, name: string): int {
    if |items| == 0 then 0
    else
      var last := items[|items| - 1];
      Tally(items[..|items| - 1], name) + (if last.name == name then last.quantity else 0)
  }

  function ItemQuantity(i: OrderItem): int {
    i.quantity
  }

  /** `Object.entries(pizzaCount)`. */
  function Entries(items: seq<OrderItem>): seq<PizzaTally> {
    var ns := Names(items);
    seq(|ns|, k requires 0 <= k < |ns| => PizzaTally(ns[k], Tally(items, ns[k])))
  }

  /** One entry per name, in key order, carrying that name's tally. */
  lemma EntryAt(items: seq<OrderItem>, k: nat)
    requires k < |Names(items)|
    ensures |Entries(items)| == |Names(items)|
    ensures Entries(items)[k] == PizzaTally(Names(items)[k], Tally(items, Names(items)[k]))
  {
  }

  /** `popularPizzas` over orders in the order the route visits them. */
  function PopularPizzas(orders: seq<Order>): seq<PizzaTally> {
    Take(SortDesc(Entries(AllItems(orders)), TallyCount), 5)
  }

  /** A name that no line carries has a tally of zero. */
  lemma {:induction false} TallyAbsent(items: seq<OrderItem>, name: string)
    requires forall k :: 0 <= k < |items| ==> items[k].name != name
    ensures Tally(items, name) == 0
  {
    if |items| > 0 {
      TallyAbsent(items[..|items| - 1], name);
    }
  }

  /** Tallying a line changes only the tally of its own name. */
  lemma TallyStep(items: seq<OrderItem>, it: OrderItem, name: string)
    ensures Tally(items + [it], name) ==
      Tally(items, name) + (if it.name == name then it.quantity else 0)
    ensures Names(items + [it]) == if it.name in Names(items) then Names(items) else Names(items) + [it.name]
  {
    assert (items + [it])[..|items|] == items;
  }

  /** After a line under a name already seen, each entry holds its old tally plus that line if it is its name. */
  lemma EntryStepAt(p: seq<OrderItem>, it: OrderItem, m: nat)
    requires it.name in Names(p) && m < |Names(p)|
    ensures |Entries(p + [it])| == |Entries(p)|
    ensures Entries(p + [it])[m] ==
      PizzaTally(Names(p)[m], Tally(p, Names(p)[m]) + (if it.name == Names(p)[m] then it.quantity else 0))
  {
    TallyStep(p, it, Names(p)[m]);
  }

  /** A line under a name already seen raises that name's entry and no other. */
  lemma EntriesStepSeen(p: seq<OrderItem>, it: OrderItem, k: nat)
    requires k < |Names(p)| && Names(p)[k] == it.name
    ensures k < |Entries(p)|
    ensures Entries(p + [it]) == Entries(p)[k := PizzaTally(it.name, Tally(p, it.name) + it.quantity)]
  {
    EntryStepAt(p, it, k);
    EntriesAgree(p, it, k, Entries(p + [it]), Entries(p)[k := PizzaTally(it.name, Tally(p, it.name) + it.quantity)]);
  }

  lemma EntriesAgree(p: seq<OrderItem>, it: OrderItem, k: nat, e: seq<PizzaTally>, u: seq<PizzaTally>)
    requires k < |Names(p)| && Names(p)[k] == it.name
    requires e == Entries(p + [it]) && u == Entries(p)[k := PizzaTally(it.name, Tally(p, it.name) + it.quantity)]
    ensures e == u
  {
    EntryStepAt(p, it, k);
    forall m | 0 <= m < |e| ensures e[m] == u[m] {
      EntryStepOther(p, it, k, m);
    }
  }

  lemma EntryStepOther(p: seq<OrderItem>, it: OrderItem, k: nat, m: nat)
    requires k < |Names(p)| && Names(p)[k] == it.name && m < |Names(p)|
    ensures |Entries(p + [it])| == |Entries(p)|
    ensures Entries(p + [it])[m] == Entries(p)[k := PizzaTally(it.name, Tally(p, it.name) + it.quantity)][m]
  {
    EntryStepAt(p, it, m);
    if m != k {
      NamesFacts(p);
      assert Names(p)[m] != Names(p)[k];
    }
  }

  /** A line under a new name appends an entry carrying just its quantity. */
  lemma EntriesStepNew(p: seq<OrderItem>, it: OrderItem)
    requires it.name !in Names(p)
    ensures Entries(p + [it]) == Entries(p) + [PizzaTally(it.name, it.quantity)]
  {
    TallyStep(p, it, it.name);
    NamesFacts(p);
    TallyAbsent(p, it.name);
    var ep := Entries(p);
    var e := Entries(p + [it]);
    forall m | 0 <= m < |e| ensures e[m] == (ep + [PizzaTally(it.name, it.quantity)])[m] {
      if m < |ep| {
        TallyStep(p, it, Names(p)[m]);
      }
    }
  }

  /** The tallies together count every ordered pizza exactly once. */
  lemma {:induction false} TalliesSumToQuantity(items: seq<OrderItem>)
    ensures SumInt(Entries(items), TallyCount) == SumInt(items, ItemQuantity)
  {
    if |items| > 0 {
      var p := items[..|items| - 1];
      var it := items[|items| - 1];
      assert items == p + [it];
      TalliesSumToQuantity(p);
      var ep := Entries(p);
      if it.name in Names(p) {
        var k :| 0 <= k < |Names(p)| && Names(p)[k] == it.name;
        EntriesStepSeen(p, it, k);
        SumIntUpdate(ep, k, PizzaTally(it.name, Tally(p, it.name) + it.quantity), TallyCount);
      } else {
        EntriesStepNew(p, it);
        var e := ep + [PizzaTally(it.name, it.quantity)];
        assert e[..|ep|] == ep;
      }
    }
  }

  /**
    At most five pizzas, by decreasing quantity; each entry is a pizza that
    was ordered, with its true tally; a pizza left out sold no more than any
    pizza listed.
  */
  lemma PopularPizzasSpec(orders: seq<Order>)
    ensures |PopularPizzas(orders)| == Min(5, |Names(AllItems(orders))|)
    ensures forall i, j :: 0 <= i < j < |PopularPizzas(orders)| ==>
      PopularPizzas(orders)[i].orders >= PopularPizzas(orders)[j].orders
    ensures forall i :: 0 <= i < |PopularPizzas(orders)| ==>
      PopularPizzas(orders)[i].name in Names(AllItems(orders)) &&
      PopularPizzas(orders)[i].orders == Tally(AllItems(orders), PopularPizzas(orders)[i].name)
    ensures forall n :: n in Names(AllItems(orders)) ==>
      (exists i :: 0 <= i < |PopularPizzas(orders)| && PopularPizzas(orders)[i].name == n) ||
      forall i :: 0 <= i < |PopularPizzas(orders)| ==> Tally(AllItems(orders), n) <= PopularPizzas(orders)[i].orders
  {
    var all := AllItems(orders);
    var e := Entries(all);
    SortDescPermutation(e, TallyCount);
    SortDescSorted(e, TallyCount);
    forall i | 0 <= i < |PopularPizzas(orders)|
      ensures PopularPizzas(orders)[i].name in Names(all) &&
        PopularPizzas(orders)[i].orders == Tally(all, PopularPizzas(orders)[i].name)
    {
      PopularIsTally(all, i);
    }
    forall n | n in Names(all)
      ensures (exists i :: 0 <= i < |PopularPizzas(orders)| && PopularPizzas(orders)[i].name == n) ||
        forall i :: 0 <= i < |PopularPizzas(orders)| ==> Tally(all, n) <= PopularPizzas(orders)[i].orders
    {
      var k :| 0 <= k < |Names(all)| && Names(all)[k] == n;
      var m := PopularLeftOut(all, k);
      if m < |PopularPizzas(orders)| {
        assert PopularPizzas(orders)[m].name == n;
      }
    }
  }

  /** The `i`-th sorted entry names an ordered pizza and carries its tally. */
  lemma PopularIsTally(all: seq<OrderItem>, i: nat)
    requires i < |Names(all)|
    ensures |SortDesc(Entries(all), TallyCount)| == |Names(all)|
    ensures SortDesc(Entries(all), TallyCount)[i].name in Names(all)
    ensures SortDesc(Entries(all), TallyCount)[i].orders == Tally(all, SortDesc(Entries(all), TallyCount)[i].name)
  {
    EntryAt(all, i);
    var j := OriginalPosition(Entries(all), TallyCount, i);
    EntryAt(all, j);
  }

  /** The name at key position `k` sits at sorted position `m`, after every larger tally. */
  lemma PopularLeftOut(all: seq<OrderItem>, k: nat) returns (m: nat)
    requires k < |Names(all)|
    ensures |SortDesc(Entries(all), TallyCount)| == |Names(all)|
    ensures m < |Names(all)| && SortDesc(Entries(all), TallyCount)[m].name == Names(all)[k]
    ensures forall i :: 0 <= i < m ==> Tally(all, Names(all)[k]) <= SortDesc(Entries(all), TallyCount)[i].orders
  {
    var e := Entries(all);
    EntryAt(all, k);
    m := SortedPosition(e, TallyCount, k);
    SortDescSorted(e, TallyCount);
    var s := SortDesc(e, TallyCount);
    forall i | 0 <= i < m ensures Tally(all, Names(all)[k]) <= s[i].orders {
      assert TallyCount(s[i]) >= TallyCount(s[m]);
    }
  }

  /** Pizzas with equal tallies keep the order in which their names were first met. */
  lemma PopularTiesKeepFirstSeenOrder(orders: seq<Order>, k: int)
    ensures KeyRun(SortDesc(Entries(AllItems(orders)), TallyCount), TallyCount, k) ==
      KeyRun(Entries(AllItems(orders)), TallyCount, k)
  {
    SortDescStable(Entries(AllItems(orders)), TallyCount, k);
  }

  /** `names` and `count` are the key order and the values of `pizzaCount` after tallying `xs`. */
  ghost predicate TallyState(xs: seq<OrderItem>, names: seq<string>, count: map<string, int>) {
    && names == Names(xs)
    && (forall n :: n in count <==> n in names)
    && (forall n :: n in count ==> count[n] == Tally(xs, n))
  }

  /** The dictionary state: the key order and the values. */
  datatype Counter = Counter(names: seq<string>, count: map<string, int>)

  /** `pizzaCount[i.name] = (pizzaCount[i.name] || 0) + i.quantity`; a new key goes last in the key order. */
  function Bump(c: Counter, it: OrderItem): Counter {
    var previous := if it.name in c.count then c.count[it.name] else 0;
    Counter(if it.name in c.count then c.names else c.names + [it.name],
      c.count[it.name := previous + it.quantity])
  }

  /** One bump keeps the dictionary in step with the tallies of the lines seen. */
  lemma TallyStateStep(xs: seq<OrderItem>, it: OrderItem, c: Counter)
    requires TallyState(xs, c.names, c.count)
    ensures TallyState(xs + [it], Bump(c, it).names, Bump(c, it).count)
  {
    var c' := Bump(c, it);
    TallyStep(xs, it, it.name);
    assert c'.names == Names(xs + [it]);
    forall n | n in c'.count ensures c'.count[n] == Tally(xs + [it], n) {
      TallyStep(xs, it, n);
      if n == it.name && it.name !in c.count {
        NamesFacts(xs);
        TallyAbsent(xs, it.name);
      }
    }
  }

  /** The dictionary after bumping it for every line of `xs`, from empty. */
  function CounterOf(xs: seq<OrderItem>): Counter {
    if |xs| == 0 then Counter([], map[])
    else Bump(CounterOf(xs[..|xs| - 1]), xs[|xs| - 1])
  }

  lemma CounterOfStep(xs: seq<OrderItem>, it: OrderItem)
    ensures CounterOf(xs + [it]) == Bump(CounterOf(xs), it)
  {
    assert (xs + [it])[..|xs|] == xs;
  }

  /** The dictionary holds, for each name met, in first-met order, its tally. */
  lemma {:induction false} CounterOfTallies(xs: seq<OrderItem>)
    ensures TallyState(xs, CounterOf(xs).names, CounterOf(xs).count)
  {
    if |xs| > 0 {
      var p := xs[..|xs| - 1];
      var it := xs[|xs| - 1];
      var c := CounterOf(p);
      CounterOfTallies(p);
      TallyStateStep(p, it, c);
      assert p + [it] == xs;
    }
  }

  /** The pizza tally as the route builds it: two nested loops over a key-ordered dictionary. */
  method CountPizzas(orders: seq<Order>) returns (names: seq<string>, count: map<string, int>)
    ensures names == Names(AllItems(orders))
    ensures forall n :: n in count <==> n in names
    ensures forall n :: n in count ==> count[n] == Tally(AllItems(orders), n)
  {
    names := [];
    count := map[];
    var i := 0;
    while i < |orders|
      invariant 0 <= i <= |orders|
      invariant Counter(names, count) == CounterOf(AllItems(orders[..i]))
    {
      assert orders[..i + 1][..i] == orders[..i];
      names, count := CountItems(orders[i].items, AllItems(orders[..i]), names, count);
      i := i + 1;
    }
    assert orders[..|orders|] == orders;
    CounterOfTallies(AllItems(orders));
  }

  /** The inner `order.items.forEach`: bumps the dictionary for each line of one order. */
  method CountItems(items: seq<OrderItem>, ghost seen: seq<OrderItem>, names0: seq<string>, count0: map<string, int>)
    returns (names: seq<string>, count: map<string, int>)
    requires Counter(names0, count0) == CounterOf(seen)
    ensures Counter(names, count) == CounterOf(seen + items)
  {
    names, count := names0, count0;
    var j := 0;
    assert seen + items[..0] == seen;
    while j < |items|
      invariant 0 <= j <= |items|
      invariant Counter(names, count) == CounterOf(seen + items[..j])
    {
      var it := items[j];
      ghost var c := Counter(names, count);
      assert seen + items[..j + 1] == (seen + items[..j]) + [it];
      CounterOfStep(seen + items[..j], it);
      var previous := if it.name in count then count[it.name] else 0;
      if it.name !in count {
        names := names + [it.name];
      }
      count := count[it.name := previous + it.quantity];
      assert Counter(names, count) == Bump(c, it);
      j := j + 1;
    }
    assert items[..|items|] == items;
  }

  /** The whole response body, from the stored records and the current day's midnight. */
  function OverviewOf(orders: seq<Order>, users: seq<User>, pizzas: seq<Pizza>, midnight: int): Overview {
    var sorted := SortDesc(orders, CreatedAt);
    Overview(
      TotalRevenue(orders),
      OrdersToday(orders, midnight),
      ActiveCount(users),
      |pizzas|,
      Map(Take(sorted, 5), Summarize),
      PopularPizzas(sorted))
  }

  /** `recentOrders` is `RecentOrders`, and the tally walks the orders newest first. */
  lemma OverviewParts(orders: seq<Order>, users: seq<User>, pizzas: seq<Pizza>, midnight: int)
    ensures OverviewOf(orders, users, pizzas, midnight).recentOrders == RecentOrders(orders)
    ensures OverviewOf(orders, users, pizzas, midnight).popularPizzas == PopularPizzas(SortDesc(orders, CreatedAt))
    ensures OverviewOf(orders, users, pizzas, midnight).pizzaTypes == |pizzas|
  {
  }

  /** `Object.entries` of a dictionary, given its key order. */
  function EntryList(names: seq<string>, count: map<string, int>): seq<PizzaTally>
    requires forall n :: n in names ==> n in count
  {
    seq(|names|, k requires 0 <= k < |names| => PizzaTally(names[k], count[names[k]]))
  }

  lemma EntryListIsEntries(xs: seq<OrderItem>, names: seq<string>, count: map<string, int>)
    requires names == Names(xs)
    requires forall n :: n in count <==> n in names
    requires forall n :: n in count ==> count[n] == Tally(xs, n)
    ensures EntryList(names, count) == Entries(xs)
  {
  }

  /** The five most recent orders, sorting a copy of `orders` in place. */
  method SortOrders(orders: seq<Order>) returns (sorted: seq<Order>)
    ensures sorted == SortDesc(orders, CreatedAt)
  {
    var a := new Order[|orders|](k requires 0 <= k < |orders| => orders[k]);
    assert a[..] == orders;
    SortInPlace(a, CreatedAt);
    sorted := a[..];
  }

  /** `popularPizzas`: tally, list the entries, sort them in place and keep five. */
  method TopPizzas(orders: seq<Order>) returns (popular: seq<PizzaTally>)
    ensures popular == PopularPizzas(orders)
  {
    var names, count := CountPizzas(orders);
    var es := EntryList(names, count);
    EntryListIsEntries(AllItems(orders), names, count);
    var entries := new PizzaTally[|es|](k requires 0 <= k < |es| => es[k]);
    assert entries[..] == es;
    SortInPlace(entries, TallyCount);
    popular := Take(entries[..], 5);
  }

  /**
    The route handler: counters first, then `orders` sorted in place (so the
    tally that follows walks the orders newest first), then the tally
    entries sorted in place and cut to five.
  */
  method ComputeOverview(orders: seq<Order>, users: seq<User>, pizzas: seq<Pizza>, midnight: int)
    returns (r: Overview)
    ensures r == OverviewOf(orders, users, pizzas, midnight)
  {
    var ordersToday := |Filter(orders, CreatedSince(midnight))|;
    var totalRevenue := SumReal(orders, OrderTotal);
    var activeCustomers := |Filter(users, IsActiveUser)|;
    var pizzaTypes := |pizzas|;
    var sorted := SortOrders(orders);
    var recent := Map(Take(sorted, 5), Summarize);
    var popular := TopPizzas(sorted);
    r := Overview(totalRevenue, ordersToday, activeCustomers, pizzaTypes, recent, popular);
  }
}
