/**
  The admin delivery-area page (frontend/app/admin/areas/page.tsx): the area
  form and the payload it submits, the edit form filled from an area, the
  search, the active toggle, the counters and the postal-code badges.
*/
module AdminAreas {
  import opened Util
  import opened Text
  import opened Records

  /** The form as typed: every field text except the switch. */
  datatype AreaForm = AreaForm(name: string, deliveryFee: string, deliveryTime: string, isActive: bool, postalCodes: string)

  /** The body posted or put: the fee parsed, the postal codes split into a list. */
  datatype AreaPayload = AreaPayload(name: string, deliveryFee: real, deliveryTime: string, isActive: bool,
                                     postalCodes: seq<string>)

  /** `!name || !deliveryFee || !deliveryTime` refuses the form. */
  predicate Complete(f: AreaForm) {
    |f.name| > 0 && |f.deliveryFee| > 0 && |f.deliveryTime| > 0
  }

  /**
    `handleSubmit`: None when a required field is empty, else the payload.
    `fee` is what `parseFloat` reads from the fee text.
  */
  function SubmitArea(f: AreaForm, fee: real): (r: Option<AreaPayload>)
    ensures r.None? <==> !Complete(f)
    ensures r.Some? ==> forall i :: 0 <= i < |r.value.postalCodes| ==> Listable(r.value.postalCodes[i])
  {
    if !Complete(f) then None
    else
      var codes := ParseList(f.postalCodes);
      Some(AreaPayload(f.name, fee, f.deliveryTime, f.isActive, codes))
  }

  /** `handleEdit`: the form filled from an area; `feeText` is `deliveryFee.toString()`. */
  function EditForm(a: Area, feeText: string): AreaForm {
    AreaForm(a.name, feeText, a.deliveryTime, a.isActive, Join(a.postalCodes, ", "))
  }

  /**
    Editing an area and saving it unchanged puts back the same name, time,
    switch and postal codes, provided every code is non-empty, trimmed and
    free of commas.
  */
  lemma EditThenSave(a: Area, feeText: string, fee: real)
    requires |a.name| > 0 && |feeText| > 0 && |a.deliveryTime| > 0
    requires forall i :: 0 <= i < |a.postalCodes| ==> Listable(a.postalCodes[i])
    ensures SubmitArea(EditForm(a, feeText), fee) ==
      Some(AreaPayload(a.name, fee, a.deliveryTime, a.isActive, a.postalCodes))
  {
    ParseJoinRoundTrip(a.postalCodes);
  }

  /** Saving twice changes nothing more: the codes saved already come back unchanged. */
  lemma SaveIsStable(f: AreaForm, fee: real, feeText: string, dbId: string, orderCount: int)
    requires SubmitArea(f, fee).Some? && |feeText| > 0
    ensures var p := SubmitArea(f, fee).value;
      SubmitArea(EditForm(Area(dbId, p.name, p.deliveryFee, p.deliveryTime, p.isActive, p.postalCodes, orderCount),
                          feeText), fee) == Some(p)
  {
    var p := SubmitArea(f, fee).value;
    EditThenSave(Area(dbId, p.name, p.deliveryFee, p.deliveryTime, p.isActive, p.postalCodes, orderCount), feeText, fee);
  }

  /** An area is listed when its name contains the term ignoring case, or one of its codes contains it. */
  predicate AreaMatches(a: Area, term: string) {
    ContainsIgnoreCase(a.name, term) || exists i :: 0 <= i < |a.postalCodes| && Contains(a.postalCodes[i], term)
  }

  function FilteredAreas(areas: seq<Area>, term: string): (r: seq<Area>)
    ensures |r| <= |areas|
  {
    Filter(areas, (a: Area) => AreaMatches(a, term))
  }

  lemma ListedIff(areas: seq<Area>, term: string, a: Area)
    ensures a in FilteredAreas(areas, term) <==> a in areas && AreaMatches(a, term)
  {
    if a in areas && AreaMatches(a, term) {
      var i :| 0 <= i < |areas| && areas[i] == a;
    }
  }

  /** An empty search lists every area, in order. */
  lemma EmptySearchListsAll(areas: seq<Area>)
    ensures FilteredAreas(areas, "") == areas
  {
    forall i | 0 <= i < |areas| ensures AreaMatches(areas[i], "") {
      EmptySearchMatches(areas[i].name);
    }
    FilterAll(areas, (a: Area) => AreaMatches(a, ""));
  }

  /** Postal codes are matched case-sensitively: a lower-case term misses an upper-case code. */
  lemma CodesMatchCaseSensitively(a: Area)
    requires a.postalCodes == ["AB1"] && a.name == "Zone"
    ensures !AreaMatches(a, "ab1")
  {
    assert !Contains("AB1", "ab1") by {
      assert "AB1"[..3][0] != "ab1"[0];
      assert "AB1"[1..] == "B1";
      ShorterNeverContains("B1", "ab1");
    }
    assert !ContainsIgnoreCase("Zone", "ab1") by {
      assert Lower("Zone") == "zone";
      assert Lower("ab1") == "ab1";
      assert "zone"[..3][0] != "ab1"[0];
      assert "zone"[1..] == "one" && "one"[..3][0] != "ab1"[0];
      assert "one"[1..] == "ne";
      ShorterNeverContains("ne", "ab1");
    }
  }

  /** The first loaded area with this id. */
  function FindArea(areas: seq<Area>, id: string): Option<Area> {
    FindBy(areas, (a: Area) => a.dbId, id)
  }

  /**
    `toggleStatus(id, current)`: the area put back with `isActive` set to
    `!current`, or None when no loaded area has the id. The button passes the
    area's own `isActive` as `current`.
  */
  function ToggleStatus(areas: seq<Area>, id: string, current: bool): (r: Option<Area>)
    ensures r.None? <==> FindArea(areas, id).None?
    ensures r.Some? ==> r.value.isActive == !current
  {
    match FindArea(areas, id)
    case None => None
    case Some(a) => Some(a.(isActive := !current))
  }

  /** Toggling from the button flips the switch and leaves fee, time, codes and counts as they were. */
  lemma ToggleFlipsOnlySwitch(areas: seq<Area>, id: string)
    requires FindArea(areas, id).Some?
    ensures var a := FindArea(areas, id).value;
      var t := ToggleStatus(areas, id, a.isActive).value;
      && t.isActive == !a.isActive
      && t.(isActive := a.isActive) == a
  {
  }

  /** Toggling twice, each time from the stored switch, puts the area back as it was. */
  lemma ToggleTwiceRestores(a: Area)
    ensures var once := ToggleStatus([a], a.dbId, a.isActive).value;
      ToggleStatus([once], a.dbId, once.isActive) == Some(a)
  {
  }

  function IsActive(a: Area): bool {
    a.isActive
  }

  /** The "Active Areas" card. */
  function ActiveCount(areas: seq<Area>): (r: nat)
    ensures r <= |areas|
  {
    |Filter(areas, IsActive)|
  }

  function OrderCount(a: Area): int {
    a.orderCount
  }

  /** The "Total Orders" card: `orderCount` summed over the areas. */
  function TotalOrders(areas: seq<Area>): int {
    SumInt(areas, OrderCount)
  }

  /** Once stored, a toggle moves the active count by exactly one and leaves the order total alone. */
  lemma {:induction false} ToggleCounters(areas: seq<Area>, k: nat)
    requires k < |areas|
    ensures var after := areas[k := areas[k].(isActive := !areas[k].isActive)];
      && TotalOrders(after) == TotalOrders(areas)
      && ActiveCount(after) == if areas[k].isActive then ActiveCount(areas) - 1 else ActiveCount(areas) + 1
  {
    var x := areas[k].(isActive := !areas[k].isActive);
    SumIntUpdate(areas, k, x, OrderCount);
    FilterCountUpdate(areas, k, x, IsActive);
  }

  /** The postal-code cell: at most three codes, then "+n more". */
  function PostalBadges(a: Area): (r: BadgeRow)
    ensures |r.shown| == Min(3, |a.postalCodes|) && r.shown == a.postalCodes[..|r.shown|]
    ensures r.more.Some? <==> |a.postalCodes| > 3
  {
    Truncate(a.postalCodes, 3)
  }

  /** Five codes show as the first three and "+2 more". */
  lemma FiveCodes(a: Area)
    requires |a.postalCodes| == 5
    ensures PostalBadges(a) == BadgeRow(a.postalCodes[..3], Some("+2 more"))
  {
    assert NatToString(2) == "2";
    assert MoreBadge(|a.postalCodes| - 3) == "+2 more";
    assert Take(a.postalCodes, 3) == a.postalCodes[..3];
  }
}
