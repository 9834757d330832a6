/** The navigation menu (src/components/Sidebar.tsx): a constant list of
    items, two of them for super admins only, filtered by the role. */
module Sidebar {
  import opened Js
  import opened AdminTypes

  datatype MenuItem = MenuItem(id: string, caption: string, superAdminOnly: bool)

  /** The first five items, open to every role. */
  const CommonItems: seq<MenuItem> := [
    MenuItem("applications", "Doctor Applications", false),
    MenuItem("doctors", "Doctor Management", false),
    MenuItem("clinics", "Clinic Management", false),
    MenuItem("users", "User Management", false),
    MenuItem("analytics", "Analytics & Reports", false)
  ]

  /** The two items flagged `superAdminOnly`. */
  const SuperAdminItems: seq<MenuItem> := [
    MenuItem("profile", "My Profile", true),
    MenuItem("settings", "Admin Settings", true)
  ]

  /** The menu in declaration order. */
  const MenuItems: seq<MenuItem> := CommonItems + SuperAdminItems

  /** The filter's test for one item. */
  predicate Shown(item: MenuItem, role: Role) {
    !item.superAdminOnly || role == SuperAdminRole
  }

  /** `item => !item.superAdminOnly || userRole === 'super_admin'` */
  function ShownTo(role: Role): MenuItem -> bool {
    (item: MenuItem) => Shown(item, role)
  }

  /** `filteredMenuItems`: the shown items, in declaration order. */
  function VisibleMenu(role: Role): seq<MenuItem> {
    Filter(MenuItems, ShownTo(role))
  }

  /** The menu a role sees holds exactly the items it may see. */
  lemma VisibleMenuKeepsExactly(role: Role)
    ensures forall x :: x in VisibleMenu(role) <==> x in MenuItems && Shown(x, role)
  {
    FilterKeepsExactly(MenuItems, ShownTo(role));
  }

  /** A super admin sees all seven items, in declaration order. */
  lemma SuperAdminSeesAll()
    ensures VisibleMenu(SuperAdminRole) == MenuItems
  {
    FilterAll(MenuItems, ShownTo(SuperAdminRole));
  }

  lemma CommonItemsShown(role: Role)
    ensures Filter(CommonItems, ShownTo(role)) == CommonItems
  {
    FilterAll(CommonItems, ShownTo(role));
  }

  lemma SuperAdminItemsHidden(role: Role)
    requires role != SuperAdminRole
    ensures Filter(SuperAdminItems, ShownTo(role)) == []
  {
    FilterNone(SuperAdminItems, ShownTo(role));
  }

  /** None of the common items opens the profile or settings page. */
  lemma CommonItemsExcludeAdminPages()
    ensures forall item | item in CommonItems :: item.id != "profile" && item.id != "settings"
  {
    forall item | item in CommonItems ensures item.id != "profile" && item.id != "settings" {
      assert |item.id| != 7 || item.id == "doctors" || item.id == "clinics";
    }
  }

  /** Every other role sees exactly the first five items: "profile" and
      "settings" are hidden. */
  lemma OthersSeeFive(role: Role)
    requires role != SuperAdminRole
    ensures VisibleMenu(role) == CommonItems
    ensures forall item | item in VisibleMenu(role) :: item.id != "profile" && item.id != "settings"
  {
    FilterAppend(CommonItems, SuperAdminItems, ShownTo(role));
    CommonItemsShown(role);
    SuperAdminItemsHidden(role);
    assert CommonItems + [] == CommonItems;
    CommonItemsExcludeAdminPages();
  }
}
