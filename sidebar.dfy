/** The application sidebar: the navigation table, the entries shown to
    the signed-in user's role, and which entry is highlighted for the
    current location. */
module Sidebar {
  import opened Common
  import opened JsString

  datatype NavItem = NavItem(name: string, href: string, roles: seq<string>)

  /** The navigation table, in display order. */
  const Navigation: seq<NavItem> := [
    NavItem("Dashboard", "/dashboard", ["admin", "manager", "employee"]),
    NavItem("Expenses", "/expenses", ["admin", "manager", "employee"]),
    NavItem("Approvals", "/approvals", ["admin", "manager"]),
    NavItem("Users", "/users", ["admin"]),
    NavItem("Approval Rules", "/approval-rules", ["admin"]),
    NavItem("Company Settings", "/company-settings", ["admin"])
  ]

  /** `item.roles.includes(role)`; an absent role is included nowhere. */
  predicate Shown(item: NavItem, role: Option<string>) {
    role.Some? && role.value in item.roles
  }

  /** One entry, kept or dropped. */
  function Keep(item: NavItem, role: Option<string>): seq<NavItem> {
    if Shown(item, role) then [item] else []
  }

  /** `navigation.filter(...)`: the entries shown to `role`, in table order. */
  function FilterByRole(items: seq<NavItem>, role: Option<string>): (menu: seq<NavItem>)
    ensures |menu| <= |items|
  {
    if items == [] then []
    else Keep(items[0], role) + FilterByRole(items[1..], role)
  }

  /** The menu holds exactly the entries of the table shown to `role`. */
  lemma {:induction false} FilterMembership(items: seq<NavItem>, role: Option<string>, x: NavItem)
    ensures x in FilterByRole(items, role) <==> x in items && Shown(x, role)
    decreases |items|
  {
    if items != [] {
      FilterMembership(items[1..], role, x);
      assert x in items <==> x == items[0] || x in items[1..];
    }
  }

  /** Filtering keeps the table's order: it distributes over concatenation. */
  lemma {:induction false} FilterKeepsOrder(a: seq<NavItem>, b: seq<NavItem>, role: Option<string>)
    ensures FilterByRole(a + b, role) == FilterByRole(a, role) + FilterByRole(b, role)
    decreases |a|
  {
    if a != [] {
      assert (a + b)[0] == a[0];
      assert (a + b)[1..] == a[1..] + b;
      FilterKeepsOrder(a[1..], b, role);
      assert FilterByRole(a + b, role) == Keep(a[0], role) + (FilterByRole(a[1..], role) + FilterByRole(b, role));
    } else {
      assert a + b == b;
    }
  }

  /** A table whose every entry is shown to `role` is kept whole. */
  lemma {:induction false} FilterAllShown(items: seq<NavItem>, role: Option<string>)
    requires forall i :: 0 <= i < |items| ==> Shown(items[i], role)
    ensures FilterByRole(items, role) == items
    decreases |items|
  {
    if items != [] {
      FilterAllShown(items[1..], role);
      assert items == [items[0]] + items[1..];
    }
  }

  /** A table none of whose entries is shown to `role` yields no menu. */
  lemma {:induction false} FilterNoneShown(items: seq<NavItem>, role: Option<string>)
    requires forall i :: 0 <= i < |items| ==> !Shown(items[i], role)
    ensures FilterByRole(items, role) == []
    decreases |items|
  {
    if items != [] {
      FilterNoneShown(items[1..], role);
    }
  }

  /** The menu of a table that shows its first `k` entries to `role` and
      none of the rest is those `k` entries. */
  lemma FilterShownPrefix(items: seq<NavItem>, role: Option<string>, k: nat)
    requires k <= |items|
    requires forall i :: 0 <= i < k ==> Shown(items[i], role)
    requires forall i :: k <= i < |items| ==> !Shown(items[i], role)
    ensures FilterByRole(items, role) == items[..k]
  {
    var front, back := items[..k], items[k..];
    assert items == front + back;
    FilterKeepsOrder(front, back, role);
    FilterAllShown(front, role);
    FilterNoneShown(back, role);
  }

  /** Administrators see the whole table. */
  lemma AdminMenu()
    ensures FilterByRole(Navigation, Some("admin")) == Navigation
  {
    FilterAllShown(Navigation, Some("admin"));
  }

  /** Managers see Dashboard, Expenses and Approvals. */
  lemma ManagerMenu()
    ensures FilterByRole(Navigation, Some("manager")) == Navigation[..3]
  {
    FilterShownPrefix(Navigation, Some("manager"), 3);
  }

  /** Employees see Dashboard and Expenses. */
  lemma EmployeeMenu()
    ensures FilterByRole(Navigation, Some("employee")) == Navigation[..2]
  {
    FilterShownPrefix(Navigation, Some("employee"), 2);
  }

  /** A user without a role, or with any other role, sees no entry. */
  lemma OtherRoleMenu(role: Option<string>)
    requires role.Some? ==> role.value != "admin" && role.value != "manager" && role.value != "employee"
    ensures FilterByRole(Navigation, role) == []
  {
    FilterNoneShown(Navigation, role);
  }

  /** `isActive(href)`: the location is the entry itself or below it. */
  predicate IsActive(pathname: string, href: string) {
    pathname == href || StartsWith(pathname, href + "/")
  }

  /** An entry is active exactly when the location begins with its `href`
      and the match ends at a segment boundary. */
  lemma ActiveAtSegmentBoundary(pathname: string, href: string)
    ensures IsActive(pathname, href) <==>
      |href| <= |pathname| && pathname[..|href|] == href && (|pathname| == |href| || pathname[|href|] == '/')
  {
    var h := href + "/";
    if |h| <= |pathname| && pathname[..|h|] == h {
      assert pathname[..|href|] == pathname[..|h|][..|href|];
      assert pathname[|href|] == pathname[..|h|][|href|];
    }
    if |href| < |pathname| && pathname[..|href|] == href && pathname[|href|] == '/' {
      assert pathname[..|h|] == pathname[..|href|] + [pathname[|href|]];
    }
    if |href| == |pathname| && pathname[..|href|] == href {
      assert pathname == pathname[..|href|];
    }
  }

  /** A prefix that does not stop at a `/` does not activate an entry. */
  lemma PrefixWithoutSlashIsNotActive()
    ensures !IsActive("/expensesX", "/expenses")
    ensures IsActive("/expenses/123", "/expenses")
    ensures IsActive("/expenses", "/expenses")
  {
    ActiveAtSegmentBoundary("/expensesX", "/expenses");
    ActiveAtSegmentBoundary("/expenses/123", "/expenses");
  }

  /** A one-segment link: a `/` followed by a non-empty name without `/`. */
  predicate OneSegment(href: string) {
    |href| >= 2 && href[0] == '/' && forall k :: 1 <= k < |href| ==> href[k] != '/'
  }

  /** Two one-segment links active at the same location are the same link. */
  lemma {:induction false} ActiveOneSegmentLinksAgree(pathname: string, h1: string, h2: string)
    requires OneSegment(h1) && OneSegment(h2)
    requires IsActive(pathname, h1) && IsActive(pathname, h2)
    ensures h1 == h2
  {
    ActiveAtSegmentBoundary(pathname, h1);
    ActiveAtSegmentBoundary(pathname, h2);
    if |h1| == |h2| {
      assert h1 == pathname[..|h1|] == h2;
    }
  }

  /** Every link in the table is a distinct one-segment link. */
  lemma NavigationLinks()
    ensures forall i :: 0 <= i < |Navigation| ==> OneSegment(Navigation[i].href)
    ensures forall i, j :: 0 <= i < j < |Navigation| ==> Navigation[i].href != Navigation[j].href
  {
  }

  /** Whatever the location, at most one sidebar entry is highlighted. */
  lemma AtMostOneActive(pathname: string)
    ensures forall i, j :: 0 <= i < j < |Navigation| && IsActive(pathname, Navigation[i].href) ==>
      !IsActive(pathname, Navigation[j].href)
  {
    NavigationLinks();
    forall i, j | 0 <= i < j < |Navigation| && IsActive(pathname, Navigation[i].href)
      ensures !IsActive(pathname, Navigation[j].href)
    {
      if IsActive(pathname, Navigation[j].href) {
        ActiveOneSegmentLinksAgree(pathname, Navigation[i].href, Navigation[j].href);
      }
    }
  }
}
