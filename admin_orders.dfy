/**
  The admin order list (frontend/app/admin/orders/page.tsx): the status
  choices, the search and status filter, the status update record and the
  counters above the table.
*/
module AdminOrders {
  import opened Util
  import opened Text
  import opened Records

  /** The statuses the page offers, with their captions. */
  datatype StatusOption = StatusOption(value: string, caption: string)

  const StatusOptions: seq<StatusOption> := [
    StatusOption("pending", "Pending"),
    StatusOption("preparing", "Preparing"),
    StatusOption("out_for_delivery", "Out for Delivery"),
    StatusOption("delivered", "Delivered"),
    StatusOption("cancelled", "Cancelled")]

  /** The values of the status options are exactly the order statuses, in order, without repeats. */
  lemma StatusSet()
    ensures Map(StatusOptions, (s: StatusOption) => s.value) == OrderStatuses
    ensures |OrderStatuses| == 5 && NoDup(OrderStatuses)
  {
    var vs := Map(StatusOptions, (s: StatusOption) => s.value);
    assert vs == OrderStatuses;
    assert OrderStatuses[0] != OrderStatuses[1];
    assert OrderStatuses[2] != OrderStatuses[3];
  }

  /** The search half of `filteredOrders`. */
  predicate MatchesSearch(o: Order, term: string) {
    ContainsIgnoreCase(o.dbId, term) || ContainsIgnoreCase(o.customerName, term) || Contains(o.customerPhone, term)
  }

  /** The status half: "all" or the order's own status. */
  predicate MatchesStatus(o: Order, statusFilter: string) {
    statusFilter == "all" || o.status == statusFilter
  }

  function FilteredOrders(orders: seq<Order>, term: string, statusFilter: string): (r: seq<Order>)
    ensures |r| <= |orders|
  {
    Filter(orders, (o: Order) => MatchesSearch(o, term) && MatchesStatus(o, statusFilter))
  }

  /** An order is listed exactly when it is loaded and passes both halves of the filter. */
  lemma ListedIff(orders: seq<Order>, term: string, statusFilter: string, o: Order)
    ensures o in FilteredOrders(orders, term, statusFilter) <==>
      o in orders && MatchesSearch(o, term) && MatchesStatus(o, statusFilter)
  {
    if o in orders && MatchesSearch(o, term) && MatchesStatus(o, statusFilter) {
      var i :| 0 <= i < |orders| && orders[i] == o;
    }
  }

  /** With no search term and the "all" filter, every order is listed, in order. */
  lemma NoFilterListsAll(orders: seq<Order>)
    ensures FilteredOrders(orders, "", "all") == orders
  {
    forall i | 0 <= i < |orders| ensures MatchesSearch(orders[i], "") {
      EmptySearchMatches(orders[i].dbId);
    }
    FilterAll(orders, (o: Order) => MatchesSearch(o, "") && MatchesStatus(o, "all"));
  }

  /** The first loaded order with this id. */
  function FindOrder(orders: seq<Order>, id: string): Option<Order> {
    FindBy(orders, (o: Order) => o.dbId, id)
  }

  /**
    `updateOrderStatus`: the record sent to the server, or None (nothing
    sent) when no loaded order has the id. Any status may be sent from any
    status; the page checks no transition.
  */
  function UpdateOrderStatus(orders: seq<Order>, id: string, newStatus: string): (r: Option<Order>)
    ensures r.None? <==> FindOrder(orders, id).None?
  {
    match FindOrder(orders, id)
    case None => None
    case Some(o) => Some(o.(status := newStatus))
  }

  /** The record sent is the loaded order with the new status and every other field as it was. */
  lemma UpdateChangesOnlyStatus(orders: seq<Order>, id: string, newStatus: string)
    requires UpdateOrderStatus(orders, id, newStatus).Some?
    ensures var sent := UpdateOrderStatus(orders, id, newStatus).value;
      exists o :: o in orders && o.dbId == id && sent.status == newStatus && sent == o.(status := newStatus)
  {
    var o := FindOrder(orders, id).value;
    assert o in orders;
  }

  /** Setting the status an order already had sends the order unchanged. */
  lemma UpdateToSameStatus(orders: seq<Order>, id: string)
    requires FindOrder(orders, id).Some?
    ensures UpdateOrderStatus(orders, id, FindOrder(orders, id).value.status) == FindOrder(orders, id)
  {
  }

  /** No transition is refused: from any status, any offered status can be sent. */
  lemma AnyTransition(o: Order, s: nat, t: nat)
    requires s < |OrderStatuses| && t < |OrderStatuses|
    ensures UpdateOrderStatus([o.(status := OrderStatuses[s])], o.dbId, OrderStatuses[t]) ==
      Some(o.(status := OrderStatuses[t]))
  {
  }

  function OrderTotal(o: Order): real {
    o.total
  }

  /** `totalRevenue`: the totals, summed from zero. */
  function Revenue(orders: seq<Order>): real {
    SumReal(orders, OrderTotal)
  }

  predicate IsPending(o: Order) {
    o.status == "pending"
  }

  /** `pendingOrders`; the "Total Orders" card shows `orders.length`. */
  function PendingCount(orders: seq<Order>): (r: nat)
    ensures r <= |orders|
  {
    |Filter(orders, IsPending)|
  }

  /**
    Once the server stores the update, revenue is unchanged and the pending
    count moves by one at most: down when a pending order leaves pending, up
    when another order is set to pending.
  */
  lemma {:induction false} StatusChangeCounters(orders: seq<Order>, k: nat, newStatus: string)
    requires k < |orders|
    ensures Revenue(orders[k := orders[k].(status := newStatus)]) == Revenue(orders)
    ensures PendingCount(orders[k := orders[k].(status := newStatus)]) ==
      PendingCount(orders) - (if IsPending(orders[k]) then 1 else 0) + (if newStatus == "pending" then 1 else 0)
  {
    var x := orders[k].(status := newStatus);
    SumRealUpdate(orders, k, x, OrderTotal);
    FilterCountUpdate(orders, k, x, IsPending);
  }

  /** Pending orders and the rest together are all the orders. */
  lemma PendingComplement(orders: seq<Order>)
    ensures PendingCount(orders) + |Filter(orders, (o: Order) => !IsPending(o))| == |orders|
  {
    FilterSplit(orders, IsPending, (o: Order) => !IsPending(o));
  }

  /** Revenue of a combined list is the sum of the revenues. */
  lemma RevenueAppend(a: seq<Order>, b: seq<Order>)
    ensures Revenue(a + b) == Revenue(a) + Revenue(b)
  {
    SumRealConcat(a, b, OrderTotal);
  }
}
