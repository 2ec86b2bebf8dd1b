/**
 * The application shell's navigation: which sidebar entries a role sees,
 * which entry is highlighted for the current path, and the page title shown
 * in the header. The sidebar open/closed toggle and the rendering are not
 * part of the model.
 */
module Layout {
  import opened Wrappers
  import opened JsStrings

  /** A sidebar entry (`caption` is the entry's `label`); `roles` absent means
      every user may see it. */
  datatype NavItem = NavItem(path: string, caption: string, roles: Option<seq<string>>)

  const DashboardEntry := NavItem("/dashboard", "Dashboard", None)
  const InventoryEntry := NavItem("/books", "Inventory", None)
  const SalesEntry := NavItem("/sales", "Sales Orders", None)
  const CustomersEntry := NavItem("/customers", "Customers", Some(["ADMIN", "HO", "BRANCH", "SALES"]))
  const MyOrdersEntry := NavItem("/my-orders", "My Orders", Some(["CUSTOMER"]))
  const PlaceOrderEntry := NavItem("/place-order", "Place Order", Some(["CUSTOMER"]))
  const PurchasesEntry := NavItem("/purchases", "Purchases", None)
  const ReportsEntry := NavItem("/reports", "Reports", None)
  const UsersEntry := NavItem("/users", "Users", Some(["ADMIN", "HO"]))

  /** The `navigation` list, in display order */
  const Navigation: seq<NavItem> := [
    DashboardEntry, InventoryEntry, SalesEntry, CustomersEntry, MyOrdersEntry,
    PlaceOrderEntry, PurchasesEntry, ReportsEntry, UsersEntry
  ]

  /** `canAccess(item.roles)` for the signed-in user's role (`None` when no
      user is signed in): an entry without roles is visible to everyone, an
      entry with roles only to a user holding one of them. */
  predicate CanAccess(roles: Option<seq<string>>, userRole: Option<string>): (ok: bool)
    ensures userRole.None? ==> (ok <==> roles.None?)
  {
    roles.None? || (userRole.Some? && userRole.value in roles.value)
  }

  /** The entries the sidebar renders: `navigation.map(item => canAccess(item.roles) && ...)` */
  function Sidebar(nav: seq<NavItem>, userRole: Option<string>): (shown: seq<NavItem>)
    ensures |shown| <= |nav|
    decreases |nav|
  {
    if |nav| == 0 then []
    else
      var rest := Sidebar(nav[1..], userRole);
      if CanAccess(nav[0].roles, userRole) then [nav[0]] + rest else rest
  }

  /** Filtering keeps the order of the list: the sidebar of a concatenation is
      the concatenation of the sidebars. */
  lemma {:induction false} SidebarKeepsOrder(a: seq<NavItem>, b: seq<NavItem>, userRole: Option<string>)
    ensures Sidebar(a + b, userRole) == Sidebar(a, userRole) + Sidebar(b, userRole)
    decreases |a|
  {
    if |a| > 0 {
      assert (a + b)[0] == a[0] && (a + b)[1..] == a[1..] + b;
      SidebarKeepsOrder(a[1..], b, userRole);
    } else {
      assert a + b == b;
    }
  }

  /** The sidebar holds exactly the entries of the list that the user may
      access. */
  lemma {:induction false} SidebarMembers(nav: seq<NavItem>, userRole: Option<string>)
    ensures forall x :: x in Sidebar(nav, userRole) <==> x in nav && CanAccess(x.roles, userRole)
    decreases |nav|
  {
    if |nav| > 0 {
      SidebarMembers(nav[1..], userRole);
      assert forall x :: x in nav <==> x == nav[0] || x in nav[1..];
    }
  }

  /** An entry is in the sidebar exactly when its roles admit the user. */
  lemma InSidebar(nav: seq<NavItem>, k: nat, userRole: Option<string>)
    requires k < |nav|
    ensures nav[k] in Sidebar(nav, userRole) <==> CanAccess(nav[k].roles, userRole)
  {
    SidebarMembers(nav, userRole);
  }

  /** An entry restricted to some roles is in the sidebar exactly when the
      signed-in user holds one of them. */
  lemma RestrictedEntry(nav: seq<NavItem>, k: nat, roles: seq<string>, userRole: Option<string>)
    requires k < |nav| && nav[k].roles == Some(roles)
    ensures nav[k] in Sidebar(nav, userRole) <==> userRole.Some? && userRole.value in roles
  {
    InSidebar(nav, k, userRole);
  }

  /** Users is shown only to ADMIN and HO. */
  lemma UsersEntryByRole(userRole: Option<string>)
    ensures UsersEntry in Sidebar(Navigation, userRole) <==> userRole in {Some("ADMIN"), Some("HO")}
  {
    assert Navigation[8] == UsersEntry;
    RestrictedEntry(Navigation, 8, ["ADMIN", "HO"], userRole);
  }

  /** Customers is shown to the four staff roles and not to customers. */
  lemma CustomersEntryByRole(userRole: Option<string>)
    ensures CustomersEntry in Sidebar(Navigation, userRole) <==>
      userRole in {Some("ADMIN"), Some("HO"), Some("BRANCH"), Some("SALES")}
  {
    assert Navigation[3] == CustomersEntry;
    RestrictedEntry(Navigation, 3, ["ADMIN", "HO", "BRANCH", "SALES"], userRole);
  }

  /** My Orders and Place Order are shown only to customers. */
  lemma CustomerEntriesByRole(userRole: Option<string>)
    ensures MyOrdersEntry in Sidebar(Navigation, userRole) <==> userRole == Some("CUSTOMER")
    ensures PlaceOrderEntry in Sidebar(Navigation, userRole) <==> userRole == Some("CUSTOMER")
  {
    assert Navigation[4] == MyOrdersEntry && Navigation[5] == PlaceOrderEntry;
    RestrictedEntry(Navigation, 4, ["CUSTOMER"], userRole);
    RestrictedEntry(Navigation, 5, ["CUSTOMER"], userRole);
  }

  lemma {:induction false} SidebarHidesAll(nav: seq<NavItem>, userRole: Option<string>)
    requires forall k :: 0 <= k < |nav| ==> !CanAccess(nav[k].roles, userRole)
    ensures Sidebar(nav, userRole) == []
    decreases |nav|
  {
    if |nav| > 0 {
      SidebarHidesAll(nav[1..], userRole);
    }
  }

  lemma {:induction false} SidebarShowsAll(nav: seq<NavItem>, userRole: Option<string>)
    requires forall k :: 0 <= k < |nav| ==> CanAccess(nav[k].roles, userRole)
    ensures Sidebar(nav, userRole) == nav
    decreases |nav|
  {
    if |nav| > 0 {
      SidebarShowsAll(nav[1..], userRole);
    }
  }

  /** Without a signed-in user the sidebar is exactly the unrestricted
      entries, in their order. */
  lemma SignedOutSidebar()
    ensures Sidebar(Navigation, None) ==
      [DashboardEntry, InventoryEntry, SalesEntry, PurchasesEntry, ReportsEntry]
  {
    var a, b := [DashboardEntry, InventoryEntry, SalesEntry], [CustomersEntry, MyOrdersEntry, PlaceOrderEntry];
    var c, d := [PurchasesEntry, ReportsEntry], [UsersEntry];
    assert Navigation == a + b + c + d;
    SidebarKeepsOrder(a + b + c, d, None);
    SidebarKeepsOrder(a + b, c, None);
    SidebarKeepsOrder(a, b, None);
    SidebarShowsAll(a, None);
    SidebarHidesAll(b, None);
    SidebarShowsAll(c, None);
    SidebarHidesAll(d, None);
  }

  /** `location.pathname.startsWith(item.path)` */
  predicate IsActive(pathname: string, item: NavItem): (active: bool)
    ensures active ==> |item.path| <= |pathname|
  {
    StartsWith(pathname, item.path)
  }

  /** `navigation.find(n => pathname.startsWith(n.path))`, as an index */
  function FirstActive(nav: seq<NavItem>, pathname: string): (k: Option<nat>)
    ensures k.Some? ==> k.value < |nav| && IsActive(pathname, nav[k.value])
                        && forall j :: 0 <= j < k.value ==> !IsActive(pathname, nav[j])
    ensures k.None? ==> forall j :: 0 <= j < |nav| ==> !IsActive(pathname, nav[j])
    decreases |nav|
  {
    if |nav| == 0 then None
    else if IsActive(pathname, nav[0]) then Some(0)
    else match FirstActive(nav[1..], pathname)
      case None => None
      case Some(k) => Some(k + 1)
  }

  /** The header title: the label of the first entry of the whole (unfiltered)
      list whose path starts the current path, or 'Dashboard' when none does
      or that label is empty. */
  function HeaderTitle(nav: seq<NavItem>, pathname: string): (title: string)
    ensures title != ""
    ensures FirstActive(nav, pathname).None? ==> title == "Dashboard"
  {
    match FirstActive(nav, pathname)
    case None => "Dashboard"
    case Some(k) => if nav[k].caption != "" then nav[k].caption else "Dashboard"
  }

  /** Tells the navigation paths apart by their first two letters after the
      slash; a proof device for `NavigationPrefixFree`. */
  function PathKey(p: string): int {
    if |p| < 3 then -1
    else if p[1] == 'd' then 0 else if p[1] == 'b' then 1 else if p[1] == 's' then 2
    else if p[1] == 'c' then 3 else if p[1] == 'm' then 4
    else if p[1] == 'p' && p[2] == 'l' then 5 else if p[1] == 'p' && p[2] == 'u' then 6
    else if p[1] == 'r' then 7 else if p[1] == 'u' then 8 else -1
  }

  lemma PathKeyIdentifies(i: nat)
    requires i < |Navigation|
    ensures |Navigation[i].path| >= 3 && PathKey(Navigation[i].path) == i
  {
  }

  /** No path of the list starts with another one. */
  predicate PrefixFree(nav: seq<NavItem>) {
    forall i, j :: 0 <= i < |nav| && 0 <= j < |nav| && i != j ==> !(nav[i].path <= nav[j].path)
  }

  /** Every entry of the list has a label. */
  predicate Labelled(nav: seq<NavItem>) {
    forall i :: 0 <= i < |nav| ==> nav[i].caption != ""
  }

  /** No path of the navigation starts with another one. */
  lemma NavigationPrefixFree(i: nat, j: nat)
    requires i < |Navigation| && j < |Navigation| && i != j
    ensures !(Navigation[i].path <= Navigation[j].path)
  {
    PathKeyIdentifies(i);
    PathKeyIdentifies(j);
  }

  lemma NavigationWellFormed()
    ensures PrefixFree(Navigation) && Labelled(Navigation)
  {
    forall i, j | 0 <= i < |Navigation| && 0 <= j < |Navigation| && i != j
      ensures !(Navigation[i].path <= Navigation[j].path)
    {
      NavigationPrefixFree(i, j);
    }
  }

  /** Two prefixes of one path are prefixes of each other. */
  lemma PrefixesOfOnePath(a: string, b: string, p: string)
    requires a <= p && b <= p && |a| <= |b|
    ensures a <= b
  {
    assert a == p[..|a|] && b == p[..|b|];
    assert b[..|a|] == p[..|a|];
  }

  /** In a prefix-free list at most one entry is active for any path. */
  lemma ActiveUnique(nav: seq<NavItem>, pathname: string, i: nat, j: nat)
    requires PrefixFree(nav) && i < |nav| && j < |nav|
    requires IsActive(pathname, nav[i]) && IsActive(pathname, nav[j])
    ensures i == j
  {
    if i != j {
      if |nav[i].path| <= |nav[j].path| {
        PrefixesOfOnePath(nav[i].path, nav[j].path, pathname);
      } else {
        PrefixesOfOnePath(nav[j].path, nav[i].path, pathname);
      }
    }
  }

  /** At most one sidebar entry is highlighted for any path. */
  lemma AtMostOneActive(pathname: string, i: nat, j: nat)
    requires i < |Navigation| && j < |Navigation|
    requires IsActive(pathname, Navigation[i]) && IsActive(pathname, Navigation[j])
    ensures i == j
  {
    NavigationWellFormed();
    ActiveUnique(Navigation, pathname, i, j);
  }

  /** In a prefix-free, labelled list the header names the active entry, and
      says 'Dashboard' when no entry is active. */
  lemma HeaderTitleOfActive(nav: seq<NavItem>, pathname: string)
    requires PrefixFree(nav) && Labelled(nav)
    ensures forall i :: 0 <= i < |nav| && IsActive(pathname, nav[i]) ==> HeaderTitle(nav, pathname) == nav[i].caption
    ensures (forall i :: 0 <= i < |nav| ==> !IsActive(pathname, nav[i])) ==> HeaderTitle(nav, pathname) == "Dashboard"
  {
    forall i | 0 <= i < |nav| && IsActive(pathname, nav[i])
      ensures HeaderTitle(nav, pathname) == nav[i].caption
    {
      var k := FirstActive(nav, pathname);
      ActiveUnique(nav, pathname, i, k.value);
    }
  }

  /** The header names the highlighted entry, and says 'Dashboard' when no
      entry is highlighted. */
  lemma HeaderTitleNamesActiveEntry(pathname: string)
    ensures forall i :: 0 <= i < |Navigation| && IsActive(pathname, Navigation[i]) ==>
      HeaderTitle(Navigation, pathname) == Navigation[i].caption
    ensures (forall i :: 0 <= i < |Navigation| ==> !IsActive(pathname, Navigation[i])) ==>
      HeaderTitle(Navigation, pathname) == "Dashboard"
  {
    NavigationWellFormed();
    HeaderTitleOfActive(Navigation, pathname);
  }
}
