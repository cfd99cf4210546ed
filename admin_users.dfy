/**
  The admin user page (frontend/app/admin/users/page.tsx): the split of the
  loaded accounts into customers and staff, the search and the role and
  status filters, the user form and its permission checkboxes, the status
  toggle, the counters and the permission badges.
*/
module AdminUsers {
  import opened Util
  import opened Text
  import opened Records

  datatype PermissionOption = PermissionOption(value: string, caption: string)

  const PermissionOptions: seq<PermissionOption> := [
    PermissionOption("orders", "Orders Management"),
    PermissionOption("pizzas", "Pizza Management"),
    PermissionOption("areas", "Area Management"),
    PermissionOption("users", "User Management"),
    PermissionOption("reports", "Reports & Analytics")]

  predicate IsCustomer(u: User) {
    u.role == "customer"
  }

  predicate IsStaff(u: User) {
    u.role != "customer"
  }

  /** The "customers" tab: the loaded accounts whose role is "customer". */
  function Customers(data: seq<User>): (r: seq<User>)
    ensures |r| <= |data|
  {
    Filter(data, IsCustomer)
  }

  /** The "admins" tab: every other role. */
  function Admins(data: seq<User>): (r: seq<User>)
    ensures |r| <= |data|
  {
    Filter(data, IsStaff)
  }

  /** Each loaded account lands in exactly one tab, and the two tabs together hold them all. */
  lemma PartitionExact(data: seq<User>, u: User)
    ensures |Customers(data)| + |Admins(data)| == |data|
    ensures multiset(Customers(data)) + multiset(Admins(data)) == multiset(data)
    ensures u in data ==> (u in Customers(data) <==> u !in Admins(data))
  {
    FilterSplit(data, IsCustomer, IsStaff);
    if u in data {
      var i :| 0 <= i < |data| && data[i] == u;
    }
  }

  /** The search half of `filteredData`. */
  predicate MatchesSearch(u: User, term: string) {
    ContainsIgnoreCase(u.name, term) || ContainsIgnoreCase(u.email, term) || Contains(u.phone, term)
  }

  predicate MatchesFilters(u: User, term: string, role: string, status: string) {
    MatchesSearch(u, term) && (role == "all" || u.role == role) && (status == "all" || u.status == status)
  }

  /** `filteredData` over the open tab. */
  function FilteredUsers(current: seq<User>, term: string, role: string, status: string): (r: seq<User>)
    ensures |r| <= |current|
  {
    Filter(current, (u: User) => MatchesFilters(u, term, role, status))
  }

  lemma ListedIff(current: seq<User>, term: string, role: string, status: string, u: User)
    ensures u in FilteredUsers(current, term, role, status) <==>
      u in current && MatchesSearch(u, term) && (role == "all" || u.role == role) &&
      (status == "all" || u.status == status)
  {
    if u in current && MatchesFilters(u, term, role, status) {
      var i :| 0 <= i < |current| && current[i] == u;
    }
  }

  /** No search and "all" twice list the whole tab, in order. */
  lemma NoFilterListsAll(current: seq<User>)
    ensures FilteredUsers(current, "", "all", "all") == current
  {
    forall i | 0 <= i < |current| ensures MatchesSearch(current[i], "") {
      EmptySearchMatches(current[i].name);
    }
    FilterAll(current, (u: User) => MatchesFilters(u, "", "all", "all"));
  }

  /** The "customer" role filter on the staff tab lists nobody. */
  lemma CustomerFilterOnStaffTab(data: seq<User>, term: string, status: string)
    ensures FilteredUsers(Admins(data), term, "customer", status) == []
  {
    FilterNone(Admins(data), (u: User) => MatchesFilters(u, term, "customer", status));
  }

  /** The user form. */
  datatype UserForm = UserForm(name: string, email: string, phone: string, role: string, status: string,
                               permissions: seq<string>)

  /** The form after `resetForm`: a new active customer without permissions. */
  const EmptyForm: UserForm := UserForm("", "", "", "customer", "active", [])

  /** `!name || !email || !role` refuses the form. */
  predicate Complete(f: UserForm) {
    |f.name| > 0 && |f.email| > 0 && |f.role| > 0
  }

  /** `handleSubmit`: None when refused, else the body sent, which is the form itself. */
  function SubmitUser(f: UserForm): (r: Option<UserForm>)
    ensures r.None? <==> !Complete(f)
    ensures r.Some? ==> r.value == f
  {
    if |f.name| == 0 || |f.email| == 0 || |f.role| == 0 then None else Some(f)
  }

  /** `handleEdit`: the form filled from an account. */
  function EditForm(u: User): UserForm {
    UserForm(u.name, u.email, u.phone, u.role, u.status, u.permissions)
  }

  /** Saving an edited account unchanged sends back its editable fields exactly. */
  lemma EditThenSave(u: User)
    requires |u.name| > 0 && |u.email| > 0 && |u.role| > 0
    ensures SubmitUser(EditForm(u)) == Some(UserForm(u.name, u.email, u.phone, u.role, u.status, u.permissions))
  {
  }

  /** A permission checkbox: checking appends the value, unchecking removes every copy of it. */
  function SetPermission(perms: seq<string>, value: string, checked: bool): (r: seq<string>)
    ensures checked ==> |r| == |perms| + 1 && r[..|perms|] == perms && r[|perms|] == value
    ensures !checked ==> value !in r && |r| <= |perms|
    ensures !checked ==> forall p :: p != value ==> (p in r <==> p in perms)
  {
    if checked then perms + [value]
    else
      var r := Filter(perms, (p: string) => p != value);
      assert forall p :: p != value && p in perms ==> p in r by {
        forall p | p != value && p in perms ensures p in r {
          var i :| 0 <= i < |perms| && perms[i] == p;
        }
      }
      r
  }

  /**
    The checkbox shows whether the value is present and clicking it flips
    that: the list then never holds a value twice, and two clicks give the
    list back, exactly when the value was absent.
  */
  function ClickPermission(perms: seq<string>, value: string): seq<string> {
    SetPermission(perms, value, value !in perms)
  }

  lemma ClickKeepsNoDup(perms: seq<string>, value: string)
    requires NoDup(perms)
    ensures NoDup(ClickPermission(perms, value))
  {
    if value in perms {
      FilterNoDup(perms, (p: string) => p != value);
    }
  }

  lemma ClickTwice(perms: seq<string>, value: string)
    requires value !in perms
    ensures ClickPermission(ClickPermission(perms, value), value) == perms
  {
    var once := perms + [value];
    assert value in once;
    FilterAll(perms, (p: string) => p != value);
    assert once[..|perms|] == perms;
    FilterConcat(perms, [value], (p: string) => p != value);
    FilterSingleton(value, (p: string) => p != value);
  }

  /** The first loaded account with this id. */
  function FindUser(us: seq<User>, id: string): Option<User> {
    FindBy(us, (u: User) => u.dbId, id)
  }

  /** `current === "active" ? "inactive" : "active"`. */
  function NextStatus(current: string): (r: string)
    ensures r == "inactive" <==> current == "active"
    ensures r == "active" || r == "inactive"
  {
    if current == "active" then "inactive" else "active"
  }

  /**
    `toggleStatus(id, current)`: the account, looked up in both tabs, put back
    with the next status; None (nothing sent) when neither tab has the id.
  */
  function ToggleStatus(customers: seq<User>, admins: seq<User>, id: string, current: string): (r: Option<User>)
    ensures r.None? <==> FindUser(customers + admins, id).None?
    ensures r.Some? ==> r.value == FindUser(customers + admins, id).value.(status := NextStatus(current))
  {
    match FindUser(customers + admins, id)
    case None => None
    case Some(u) => Some(u.(status := NextStatus(current)))
  }

  /**
    The status button of a row, as written: `toggleStatus(user.id, user.status)`.
    The lookup compares `_id` with `user.id`; with no `id` key that is
    `undefined`, which no account's `_id` equals, so nothing is sent.
  */
  function StatusClick(customers: seq<User>, admins: seq<User>, u: User): (r: Option<User>)
    ensures r.None? <==> u.idKey.None? || FindUser(customers + admins, u.idKey.value).None?
    ensures u.idKey.Some? ==> r == ToggleStatus(customers, admins, u.idKey.value, u.status)
  {
    match u.idKey
    case None => None
    case Some(id) => ToggleStatus(customers, admins, id, u.status)
  }

  /** As served, no account carries `id`: clicking any row's status button sends nothing. */
  lemma StatusClickSendsNothing(customers: seq<User>, admins: seq<User>, u: User)
    requires u in customers + admins
    requires forall i :: 0 <= i < |customers + admins| ==> (customers + admins)[i].idKey.None?
    ensures StatusClick(customers, admins, u) == None
  {
    var i :| 0 <= i < |customers + admins| && (customers + admins)[i] == u;
  }

  /** No two loaded accounts share a database id. */
  predicate DistinctIds(us: seq<User>) {
    forall i, j :: 0 <= i < j < |us| ==> us[i].dbId != us[j].dbId
  }

  /** The button keyed by the database id, as the other admin pages pass it. */
  function StatusClickById(customers: seq<User>, admins: seq<User>, u: User): Option<User> {
    ToggleStatus(customers, admins, u.dbId, u.status)
  }

  /**
    Keyed by `_id`, the click on a listed account always sends an account with
    that id and the next status; when the ids are distinct it is the clicked
    account itself with only its status changed.
  */
  lemma StatusClickByIdToggles(customers: seq<User>, admins: seq<User>, u: User)
    requires u in customers + admins
    ensures var r := StatusClickById(customers, admins, u);
      r.Some? && r.value.dbId == u.dbId && r.value.status == NextStatus(u.status)
    ensures DistinctIds(customers + admins) ==> StatusClickById(customers, admins, u) == Some(u.(status := NextStatus(u.status)))
  {
    var all := customers + admins;
    var i :| 0 <= i < |all| && all[i] == u;
    assert all[i].dbId == u.dbId;
    var found := FindUser(all, u.dbId);
    assert found.Some?;
    if DistinctIds(all) {
      var j :| 0 <= j < |all| && all[j] == found.value;
      assert j == i;
    }
  }

  /** From the two listed states, a toggle moves to the other; any other state becomes "active". */
  lemma ToggleFromListedStates(u: User)
    ensures ToggleStatus([u.(status := "active")], [], u.dbId, "active") == Some(u.(status := "inactive"))
    ensures ToggleStatus([u.(status := "inactive")], [], u.dbId, "inactive") == Some(u.(status := "active"))
    ensures ToggleStatus([u], [], u.dbId, u.status).value.status == "active" <==> u.status != "active"
  {
  }

  /** Toggling twice from the stored status restores an account whose status was one of the two states. */
  lemma ToggleTwiceRestores(u: User)
    requires u.status == "active" || u.status == "inactive"
    ensures var once := ToggleStatus([u], [], u.dbId, u.status).value;
      ToggleStatus([once], [], u.dbId, once.status) == Some(u)
  {
  }

  function Spent(u: User): real {
    u.totalSpent.GetOr(0.0)
  }

  /** The revenue card: `totalSpent` over the customers tab, a missing value counting 0. */
  function CustomerRevenue(customers: seq<User>): real {
    SumReal(customers, Spent)
  }

  /** Accounts without a recorded amount add nothing to the revenue. */
  lemma {:induction false} MissingSpentAddsNothing(customers: seq<User>, extra: seq<User>)
    requires forall i :: 0 <= i < |extra| ==> extra[i].totalSpent.None?
    ensures CustomerRevenue(customers + extra) == CustomerRevenue(customers)
    decreases |extra|
  {
    if |extra| == 0 {
      assert customers + extra == customers;
    } else {
      var e' := extra[..|extra| - 1];
      MissingSpentAddsNothing(customers, e');
      assert (customers + extra)[..|customers + extra| - 1] == customers + e';
    }
  }

  /** Staff accounts never reach the customer counters. */
  lemma CountersIgnoreStaff(data: seq<User>, staff: User)
    requires staff.role != "customer"
    ensures Customers(data + [staff]) == Customers(data)
    ensures ActiveCount(Customers(data + [staff])) == ActiveCount(Customers(data))
  {
    FilterConcat(data, [staff], IsCustomer);
    FilterSingleton(staff, IsCustomer);
  }

  /** The permission cell of a staff row. */
  datatype PermissionCell =
    | AllPermissions
    | Listed(captions: seq<Option<string>>, more: Option<string>)

  /** The caption a permission value shows as; an unknown value shows nothing. */
  function Caption(value: string): Option<string> {
    CaptionIn(PermissionOptions, value)
  }

  function CaptionIn(options: seq<PermissionOption>, value: string): (r: Option<string>)
    ensures r.None? <==> forall i :: 0 <= i < |options| ==> options[i].value != value
  {
    if |options| == 0 then None
    else if options[0].value == value then Some(options[0].caption)
    else CaptionIn(options[1..], value)
  }

  /**
    One "All Permissions" badge when the list holds "all"; otherwise the
    first two permissions and "+n more" when there are more than two.
  */
  function PermissionBadges(perms: seq<string>): (r: PermissionCell)
    ensures r.AllPermissions? <==> "all" in perms
    ensures r.Listed? ==> |r.captions| == Min(2, |perms|)
    ensures r.Listed? ==> forall i :: 0 <= i < |r.captions| ==> r.captions[i] == Caption(perms[i])
    ensures r.Listed? ==> (r.more.Some? <==> |perms| > 2)
    ensures r.Listed? && r.more.Some? ==> r.more.value == MoreBadge(|perms| - 2)
  {
    if "all" in perms then AllPermissions
    else
      var row := Truncate(perms, 2);
      Listed(Map(row.shown, Caption), row.more)
  }

  /** A list holding "all" shows a single badge however long it is. */
  lemma AllShowsOneBadge(perms: seq<string>, extra: seq<string>)
    requires "all" in perms
    ensures PermissionBadges(perms + extra) == AllPermissions
  {
    var i :| 0 <= i < |perms| && perms[i] == "all";
    assert (perms + extra)[i] == "all";
  }
}
