/** The sidebar (components/Sidebar.tsx): a fixed table of menu items, each with
    the roles that may see it, filtered by the logged-in user's role. */
module Sidebar {
  import opened Seqs
  import opened Types

  datatype NavItem = NavItem(id: View, caption: string, roles: seq<UserRole>)

  const DashboardItem := NavItem(Dashboard, "Dashboard", [Admin])
  const PosItem := NavItem(Pos, "Kasir (POS)", [Admin, Kasir])
  const InventoryItem := NavItem(Inventory, "Inventaris", [Admin])
  const TransactionsItem := NavItem(Transactions, "Transaksi", [Admin, Kasir])
  const UsersItem := NavItem(Users, "Pengguna", [Admin])
  const SettingsItem := NavItem(Settings, "Pengaturan", [Admin])

  /** `allNavItems` (Sidebar.tsx:23-30); the icons are left out. */
  const AllNavItems: seq<NavItem> :=
    [DashboardItem, PosItem, InventoryItem, TransactionsItem, UsersItem, SettingsItem]

  /** `currentUser && item.roles.includes(currentUser.role)` */
  predicate Offered(user: Option<User>, item: NavItem)
  {
    user.Some? && user.value.role in item.roles
  }

  /** The filter's callback, as a named function so every proof refers to the same term. */
  function OfferedTo(user: Option<User>): NavItem -> bool
  {
    (item: NavItem) => Offered(user, item)
  }

  /** `availableNavItems` (Sidebar.tsx:34): the items of the table that list the
      user's role, in table order; nothing without a user. */
  function AvailableNavItems(user: Option<User>): (r: seq<NavItem>)
    ensures IsSubsequence(r, AllNavItems)
    ensures forall i :: 0 <= i < |r| ==> user.Some? && user.value.role in r[i].roles
    ensures forall i :: 0 <= i < |AllNavItems| && Offered(user, AllNavItems[i]) ==> AllNavItems[i] in r
  {
    Filter(AllNavItems, OfferedTo(user))
  }

  /** The views the menu offers, in menu order. */
  function MenuViews(user: Option<User>): seq<View>
  {
    Map(AvailableNavItems(user), (item: NavItem) => item.id)
  }

  /** The highlight rule (Sidebar.tsx:56-58). */
  predicate IsActive(item: NavItem, currentView: View)
  {
    currentView == item.id
  }

  /** Who may see each item of the table. */
  lemma TableRoles()
    ensures |AllNavItems| == 6
    ensures forall i :: 0 <= i < 6 ==> Admin in AllNavItems[i].roles
    ensures forall i :: 0 <= i < 6 ==> (Kasir in AllNavItems[i].roles <==> i == 1 || i == 3)
  {
    var s := AllNavItems;
    assert s[0].roles == [Admin] && s[1].roles == [Admin, Kasir] && s[2].roles == [Admin];
    assert s[3].roles == [Admin, Kasir] && s[4].roles == [Admin] && s[5].roles == [Admin];
  }

  /** The last three items are for administrators only. */
  lemma {:induction false} KasirMenuTail(user: Option<User>)
    requires user.Some? && user.value.role == Kasir
    ensures Filter(AllNavItems[3..], OfferedTo(user)) == [TransactionsItem]
  {
    var s, p := AllNavItems, OfferedTo(user);
    assert !p(UsersItem) && !p(SettingsItem) && p(TransactionsItem);
    assert Filter(s[6..], p) == [];
    assert Filter(s[5..], p) == [];
    assert Filter(s[4..], p) == [];
  }

  /** The inventory item is for administrators only. */
  lemma {:induction false} KasirMenuFromInventory(user: Option<User>)
    requires user.Some? && user.value.role == Kasir
    ensures Filter(AllNavItems[2..], OfferedTo(user)) == [TransactionsItem]
  {
    var s, p := AllNavItems, OfferedTo(user);
    KasirMenuTail(user);
    assert !p(InventoryItem);
    assert s[2..][1..] == s[3..];
  }

  lemma {:induction false} KasirMenuFromPos(user: Option<User>)
    requires user.Some? && user.value.role == Kasir
    ensures Filter(AllNavItems[1..], OfferedTo(user)) == [PosItem, TransactionsItem]
  {
    var s, p := AllNavItems, OfferedTo(user);
    KasirMenuFromInventory(user);
    assert p(PosItem) && s[1..][1..] == s[2..];
  }

  /** A cashier sees the POS and the transaction list, in that order. */
  lemma {:induction false} KasirMenu(user: Option<User>)
    requires user.Some? && user.value.role == Kasir
    ensures AvailableNavItems(user) == [PosItem, TransactionsItem]
  {
    KasirMenuFromPos(user);
    assert !OfferedTo(user)(DashboardItem);
  }

  lemma KasirMenuViews(user: Option<User>)
    requires user.Some? && user.value.role == Kasir
    ensures MenuViews(user) == [Pos, Transactions]
  {
    KasirMenu(user);
    var views := MenuViews(user);
    assert |views| == 2 && views[0] == PosItem.id && views[1] == TransactionsItem.id;
  }

  /** An administrator sees every item of the table. */
  lemma AdminMenu(user: Option<User>)
    requires user.Some? && user.value.role == Admin
    ensures AvailableNavItems(user) == AllNavItems
  {
    TableRoles();
    var p := OfferedTo(user);
    assert forall i :: 0 <= i < |AllNavItems| ==> p(AllNavItems[i]);
    FilterKeepsAll(AllNavItems, p);
  }

  /** Where each view sits in the table. */
  function TableIndex(view: View): (k: nat)
    ensures k < |AllNavItems| && AllNavItems[k].id == view
  {
    match view
    case Dashboard => 0
    case Pos => 1
    case Inventory => 2
    case Transactions => 3
    case Users => 4
    case Settings => 5
  }

  /** An administrator's menu offers every view. */
  lemma AdminSeesEveryView(user: Option<User>, view: View)
    requires user.Some? && user.value.role == Admin
    ensures view in MenuViews(user)
  {
    AdminMenu(user);
    assert MenuViews(user)[TableIndex(view)] == view;
  }

  /** Without a user the menu is empty. */
  lemma NoUserMenu()
    ensures AvailableNavItems(None) == []
  {
  }

  /** No two items of `items` are for the same view. */
  predicate DistinctIds(items: seq<NavItem>)
  {
    forall i, j :: 0 <= i < j < |items| ==> items[i].id != items[j].id
  }

  lemma TableIdsDistinct()
    ensures DistinctIds(AllNavItems)
  {
    var s := AllNavItems;
    assert s[0].id == Dashboard && s[1].id == Pos && s[2].id == Inventory;
    assert s[3].id == Transactions && s[4].id == Users && s[5].id == Settings;
  }

  /** The menu never lists a view twice, so at most one of its items is highlighted. */
  lemma MenuIdsDistinct(user: Option<User>)
    ensures DistinctIds(AvailableNavItems(user))
  {
    if user.None? {
      NoUserMenu();
    } else if user.value.role == Admin {
      AdminMenu(user);
      TableIdsDistinct();
    } else {
      KasirMenu(user);
      assert AllNavItems[1].id == Pos && AllNavItems[3].id == Transactions;
    }
  }

  /** Some item is highlighted exactly when the current view is on the menu. */
  lemma ActiveIffOnMenu(user: Option<User>, currentView: View)
    ensures var menu := AvailableNavItems(user);
            (exists i :: 0 <= i < |menu| && IsActive(menu[i], currentView)) <==> currentView in MenuViews(user)
  {
    var menu, views := AvailableNavItems(user), MenuViews(user);
    if currentView in views {
      var i :| 0 <= i < |views| && views[i] == currentView;
      assert IsActive(menu[i], currentView);
    }
  }
}
