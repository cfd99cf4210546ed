/**
  The customer's profile page (frontend/app/profile/page.tsx): the orders
  placed under the stored account's email, split into active and past, and
  the details form with its edit, cancel and save buttons.
*/
module Profile {
  import opened Util
  import opened Records

  /** The account kept by the browser; a key the stored JSON lacks is None. */
  datatype StoredUser = StoredUser(name: Option<string>, email: Option<string>, phone: Option<string>)

  /** The details form. */
  datatype EditData = EditData(name: string, email: string, phone: string)

  /**
    The orders the page keeps: those whose `customerEmail` is strictly equal
    to the account's email. An account without an email therefore sees the
    orders that carry none.
  */
  function UserOrders(all: seq<Order>, email: Option<string>): (r: seq<Order>)
    ensures |r| <= |all|
    ensures forall i :: 0 <= i < |r| ==> r[i].customerEmail == email
  {
    Filter(all, (o: Order) => o.customerEmail == email)
  }

  /** An order is kept exactly when it was loaded and carries the account's email. */
  lemma UserOrdersIff(all: seq<Order>, email: Option<string>, o: Order)
    ensures o in UserOrders(all, email) <==> o in all && o.customerEmail == email
  {
    if o in all && o.customerEmail == email {
      var i :| 0 <= i < |all| && all[i] == o;
    }
  }

  /** Delivered and cancelled orders are over; every other status is still active. */
  predicate IsClosed(o: Order) {
    o.status == "delivered" || o.status == "cancelled"
  }

  predicate IsOpen(o: Order) {
    o.status != "delivered" && o.status != "cancelled"
  }

  function ActiveOrders(orders: seq<Order>): (r: seq<Order>)
    ensures |r| <= |orders|
  {
    Filter(orders, IsOpen)
  }

  function PastOrders(orders: seq<Order>): (r: seq<Order>)
    ensures |r| <= |orders|
  {
    Filter(orders, IsClosed)
  }

  /** Each of the account's orders shows in exactly one of the two lists, and the two together hold them all. */
  lemma ActivePastPartition(orders: seq<Order>, o: Order)
    ensures |ActiveOrders(orders)| + |PastOrders(orders)| == |orders|
    ensures multiset(ActiveOrders(orders)) + multiset(PastOrders(orders)) == multiset(orders)
    ensures o in orders ==> (o in ActiveOrders(orders) <==> o !in PastOrders(orders))
  {
    FilterSplit(orders, IsOpen, IsClosed);
    if o in orders {
      var i :| 0 <= i < |orders| && orders[i] == o;
    }
  }

  /** Of the order statuses, the first three are active and the last two past. */
  lemma StatusesSplit()
    ensures forall i :: 0 <= i < 3 ==> OrderStatuses[i] != "delivered" && OrderStatuses[i] != "cancelled"
    ensures OrderStatuses[3] == "delivered" && OrderStatuses[4] == "cancelled"
  {
  }

  /** The form filled from the account, an absent key giving the empty string. */
  function FormOf(u: StoredUser): (r: EditData)
    ensures u.name.Some? ==> r.name == u.name.value
    ensures u.name.None? ==> r.name == ""
    ensures u.email.Some? ==> r.email == u.email.value
    ensures u.email.None? ==> r.email == ""
    ensures u.phone.Some? ==> r.phone == u.phone.value
    ensures u.phone.None? ==> r.phone == ""
  {
    EditData(u.name.GetOr(""), u.email.GetOr(""), u.phone.GetOr(""))
  }

  /** The details card with its form. */
  class ProfileCard {
    var user: StoredUser
    var editMode: bool
    var editData: EditData

    /** The page as loaded with a stored account: the form filled from it, not editing. */
    constructor (u: StoredUser)
      ensures user == u && !editMode && editData == FormOf(u)
    {
      user := u;
      editMode := false;
      editData := FormOf(u);
    }

    /** `handleEdit`: editing, with the form refilled from the account. */
    method Edit()
      modifies this
      ensures editMode && editData == FormOf(user) && user == old(user)
    {
      editMode := true;
      editData := FormOf(user);
    }

    /** Typing into one of the three inputs. */
    method Type(d: EditData)
      modifies this
      ensures editData == d && editMode == old(editMode) && user == old(user)
    {
      editData := d;
    }

    /** `handleCancel`: whatever was typed is discarded and the form shows the account again. */
    method Cancel()
      modifies this
      ensures !editMode && editData == FormOf(user) && user == old(user)
    {
      editMode := false;
      editData := FormOf(user);
    }

    /**
      `handleSave`: `saved` is the account the server returns, None when the
      request fails. On success the account is replaced and editing ends; on
      failure nothing changes, so the typed values stay in the form.
    */
    method Save(saved: Option<StoredUser>)
      modifies this
      ensures saved.Some? ==> user == saved.value && !editMode && editData == old(editData)
      ensures saved.None? ==> user == old(user) && editMode == old(editMode) && editData == old(editData)
    {
      if saved.Some? {
        user := saved.value;
        editMode := false;
      }
    }
  }

  /** Edit, type anything, cancel: the form is back to what the account holds. */
  method EditTypeCancel(card: ProfileCard, typed: EditData) returns (shown: EditData)
    modifies card
    ensures shown == FormOf(old(card.user)) && !card.editMode && card.user == old(card.user)
  {
    card.Edit();
    card.Type(typed);
    card.Cancel();
    shown := card.editData;
  }
}
