/** The application shell (App.tsx): the state it keeps for every screen, the
    handlers it passes down, which calls into the store, and the two gates that
    decide what is drawn: the loading and login gate, and the role gate. */
module App {
  import opened Seqs
  import opened Types
  import Store
  import PosScreen
  import Sidebar
  import TransactionsScreen
  import DashboardScreen

  /** What `renderView` draws in the main area. */
  datatype Content = ContentLoading | AccessDenied | Show(view: View)

  /** What the application draws as a whole. */
  datatype Page = StartupLoading | LoginPage | Layout(content: Content)

  /** The screens a cashier may not open (App.tsx:123). */
  const ForbiddenForKasir: seq<View> := [Dashboard, Inventory, Users, Settings]

  /** Where a user lands after logging in or on a restored session. */
  function LandingView(role: UserRole): (v: View)
    ensures role == Admin <==> v == Dashboard
    ensures role == Kasir <==> v == Pos
  {
    match role
    case Admin => Dashboard
    case Kasir => Pos
  }

  /** `renderView` (App.tsx:117-144): nothing until the data and the settings are
      loaded; then a cashier is turned away from the four forbidden screens and
      everybody else sees the current view. */
  function RenderView(isLoading: bool, settingsLoaded: bool, user: Option<User>, view: View): (c: Content)
    ensures c == ContentLoading <==> isLoading || !settingsLoaded
    ensures c == AccessDenied <==>
              !isLoading && settingsLoaded && user.Some? && user.value.role == Kasir &&
              view in [Dashboard, Inventory, Users, Settings]
    ensures c.Show? ==> c.view == view
  {
    if isLoading || !settingsLoaded then ContentLoading
    else if user.Some? && user.value.role == Kasir && view in ForbiddenForKasir then AccessDenied
    else Show(view)
  }

  /** The page (App.tsx:146-171): a startup screen while loading, the login form
      without a user, otherwise the layout with the sidebar and `renderView`. */
  function PageOf(isLoading: bool, settingsLoaded: bool, user: Option<User>, view: View): (p: Page)
    ensures p == StartupLoading <==> isLoading
    ensures p == LoginPage <==> !isLoading && user.None?
    ensures p.Layout? ==> user.Some? && p.content == RenderView(false, settingsLoaded, user, view)
  {
    if isLoading then StartupLoading
    else if user.None? then LoginPage
    else Layout(RenderView(isLoading, settingsLoaded, user, view))
  }

  /** An administrator's menu lists every screen, and none is denied. */
  lemma AdminMenuMatchesAccess(user: User, view: View)
    requires user.role == Admin
    ensures view in Sidebar.MenuViews(Some(user))
    ensures RenderView(false, true, Some(user), view) == Show(view)
  {
    Sidebar.AdminSeesEveryView(Some(user), view);
  }

  /** The role gate lets a cashier through to the POS and the transaction list only. */
  lemma KasirAccess(user: User, view: View)
    requires user.role == Kasir
    ensures RenderView(false, true, Some(user), view) == Show(view) <==> view == Pos || view == Transactions
  {
    var forbidden := ForbiddenForKasir;
    match view
    case Dashboard => assert forbidden[0] == view;
    case Inventory => assert forbidden[1] == view;
    case Users => assert forbidden[2] == view;
    case Settings => assert forbidden[3] == view;
    case Pos =>
    case Transactions =>
  }

  /** A cashier's menu lists exactly the two screens the role gate lets through. */
  lemma KasirMenuMatchesAccess(user: User, view: View)
    requires user.role == Kasir
    ensures view in Sidebar.MenuViews(Some(user)) <==> RenderView(false, true, Some(user), view) == Show(view)
  {
    Sidebar.KasirMenuViews(Some(user));
    assert view in [Pos, Transactions] <==> view == Pos || view == Transactions;
    KasirAccess(user, view);
  }

  /** The role gate and the sidebar agree: once loaded, a user sees a screen
      exactly when the sidebar offers it. */
  lemma MenuMatchesAccess(user: User, view: View)
    ensures view in Sidebar.MenuViews(Some(user)) <==> RenderView(false, true, Some(user), view) == Show(view)
  {
    if user.role == Admin {
      AdminMenuMatchesAccess(user, view);
    } else {
      KasirMenuMatchesAccess(user, view);
    }
  }

  /** The screen a user lands on is never denied and is on the user's menu. */
  lemma LandingAllowed(user: User)
    ensures RenderView(false, true, Some(user), LandingView(user.role)) == Show(LandingView(user.role))
    ensures LandingView(user.role) in Sidebar.MenuViews(Some(user))
  {
    MenuMatchesAccess(user, LandingView(user.role));
  }

  /** An administrator is never turned away. */
  lemma AdminNeverDenied(user: User, view: View, isLoading: bool, settingsLoaded: bool)
    requires user.role == Admin
    ensures RenderView(isLoading, settingsLoaded, Some(user), view) != AccessDenied
  {
  }

  /** The snapshot the POS sends at checkout is what the store ends up holding:
      copying its stocks back by id onto the same products yields the snapshot. */
  lemma CheckoutStoresSnapshot(products: seq<Product>, cart: seq<CartItem>)
    requires UniqueProductIds(products)
    ensures Store.StockSynced(products, PosScreen.UpdatedProducts(products, cart)) ==
            PosScreen.UpdatedProducts(products, cart)
  {
    var updated := PosScreen.UpdatedProducts(products, cart);
    forall i | 0 <= i < |products|
      ensures updated[i] == products[i].(stock := updated[i].stock)
    {
    }
    Store.StockSyncedSnapshot(products, updated);
  }

  /** A checkout from a cart that keeps the POS invariant leaves no stock negative. */
  lemma CheckoutKeepsStockNonNegative(products: seq<Product>, cart: seq<CartItem>)
    requires UniqueProductIds(products) && PosScreen.CartInvariant(cart, products)
    requires forall i :: 0 <= i < |products| ==> products[i].stock >= 0
    ensures var stored := Store.StockSynced(products, PosScreen.UpdatedProducts(products, cart));
            forall i :: 0 <= i < |stored| ==> stored[i].stock >= 0
  {
    CheckoutStoresSnapshot(products, cart);
    PosScreen.CheckoutStockNonNegative(cart, products);
  }

  /** No product has a negative stock. */
  ghost predicate StocksNonNegative(products: seq<Product>)
  {
    forall i :: 0 <= i < |products| ==> products[i].stock >= 0
  }

  /** The checkout data is what the POS computes from its cart against `products`. */
  ghost predicate IsCheckoutAgainst(data: PosScreen.CheckoutData, products: seq<Product>)
  {
    data.updatedProducts == PosScreen.UpdatedProducts(products, data.transaction.items)
  }

  /** What the store's stock loop makes of checkout data sent against `products`. */
  lemma CheckoutStored(products: seq<Product>, data: PosScreen.CheckoutData)
    requires UniqueProductIds(products)
    ensures IsCheckoutAgainst(data, products) ==>
              Store.StockSynced(products, data.updatedProducts) == data.updatedProducts
    ensures (&& IsCheckoutAgainst(data, products)
             && PosScreen.CartInvariant(data.transaction.items, products)
             && StocksNonNegative(products))
            ==> StocksNonNegative(Store.StockSynced(products, data.updatedProducts))
  {
    var items := data.transaction.items;
    if IsCheckoutAgainst(data, products) {
      CheckoutStoresSnapshot(products, items);
      if PosScreen.CartInvariant(items, products) && StocksNonNegative(products) {
        CheckoutKeepsStockNonNegative(products, items);
      }
    }
  }

  /** Once the history has reordered the shared list newest first, a dashboard
      with more than ten days of sales leaves out the newest one: `ts[0]` is a
      newest transaction and its day has no entry in the chart. */
  lemma HistoryHidesNewestDay(ts: seq<Transaction>, time: string -> int, dayKey: string -> string)
    requires TransactionsScreen.NewestFirst(ts, time)
    requires |DashboardScreen.Bucketed(ts, dayKey)| > 10
    ensures ts != [] && forall i :: 0 <= i < |ts| ==> time(ts[i].date) <= time(ts[0].date)
    ensures forall i :: 0 <= i < |DashboardScreen.LastTen(DashboardScreen.Bucketed(ts, dayKey))| ==>
              DashboardScreen.LastTen(DashboardScreen.Bucketed(ts, dayKey))[i].name != dayKey(ts[0].date)
  {
    DashboardScreen.ChartOmitsFirstDay(ts, dayKey);
  }

  /** The application's state (App.tsx:17-23) and the store it talks to. */
  class AppState {
    const db: Store.Db
    var products: seq<Product>
    var transactions: seq<Transaction>
    var users: seq<User>
    var appSettings: Option<AppSettings>
    var currentUser: Option<User>
    var currentView: View
    var isLoading: bool

    constructor (db: Store.Db)
      ensures this.db == db
      ensures products == [] && transactions == [] && users == [] && appSettings == None
      ensures currentUser == None && currentView == Dashboard && isLoading
    {
      this.db := db;
      products, transactions, users, appSettings := [], [], [], None;
      currentUser, currentView, isLoading := None, Dashboard, true;
    }

    /** The drawn page. */
    function Page(): Page
      reads this
    {
      PageOf(isLoading, appSettings.Some?, currentUser, currentView)
    }

    /** `initializeApp` (App.tsx:25-59): loads every table and the settings, and
        restores the session's user onto the landing view. */
    method Initialize()
      modifies this
      ensures products == db.products && transactions == db.transactions
      ensures users == Store.PublicUsers(db.users) && appSettings == Some(db.appSettings)
      ensures db.session.Some? ==> currentUser == db.session && currentView == LandingView(db.session.value.role)
      ensures db.session.None? ==> currentUser == old(currentUser) && currentView == old(currentView)
      ensures !isLoading
    {
      isLoading := true;
      products := db.GetProducts();
      transactions := db.GetTransactions();
      users := db.GetUsers();
      var settings := db.GetAppSettings();
      appSettings := Some(settings);
      var loggedInUser := db.GetCurrentUser();
      if loggedInUser.Some? {
        currentUser := loggedInUser;
        currentView := LandingView(loggedInUser.value.role);
      }
      isLoading := false;
    }

    /** `handleCheckout` (App.tsx:66-72): the store records the sale and the
        screen reloads both tables. When the data is the POS's checkout against
        the stored products, the store ends up holding exactly the POS's updated
        list, and a cart that kept its invariant leaves no stock negative. */
    method HandleCheckout(data: PosScreen.CheckoutData, freshId: string, date: string)
      requires forall i :: 0 <= i < |db.transactions| ==> db.transactions[i].id != freshId
      requires db.Valid()
      modifies this, db
      ensures db.Valid()
      ensures db.transactions == old(db.transactions) +
                [Transaction(freshId, data.transaction.items, data.transaction.total,
                             data.transaction.profit, date)]
      ensures db.products == Store.StockSynced(old(db.products), data.updatedProducts)
      ensures IsCheckoutAgainst(data, old(db.products)) ==> db.products == data.updatedProducts
      ensures (&& IsCheckoutAgainst(data, old(db.products))
               && PosScreen.CartInvariant(data.transaction.items, old(db.products))
               && StocksNonNegative(old(db.products)))
              ==> StocksNonNegative(db.products)
      ensures db.users == old(db.users) && db.appSettings == old(db.appSettings)
      ensures db.session == old(db.session)
      ensures transactions == db.transactions && products == db.products
      ensures users == old(users) && appSettings == old(appSettings)
      ensures currentUser == old(currentUser) && currentView == old(currentView) && isLoading == old(isLoading)
    {
      CheckoutStored(db.products, data);
      var _ := db.SaveTransaction(data.transaction, data.updatedProducts, freshId, date);
      transactions := db.GetTransactions();
      products := db.GetProducts();
    }

    /** `handleSaveProduct` (App.tsx:74-77). */
    method HandleSaveProduct(data: ProductData, freshId: string)
      requires Store.IsFreshProductId(db.products, freshId)
      requires db.Valid()
      modifies this, db
      ensures db.Valid()
      ensures db.products == Store.ProductsAfterSave(old(db.products), data, freshId)
      ensures db.transactions == old(db.transactions) && db.users == old(db.users)
      ensures db.appSettings == old(db.appSettings) && db.session == old(db.session)
      ensures products == db.products
      ensures transactions == old(transactions) && users == old(users) && appSettings == old(appSettings)
      ensures currentUser == old(currentUser) && currentView == old(currentView) && isLoading == old(isLoading)
    {
      var _ := db.SaveProduct(data, freshId);
      products := db.GetProducts();
    }

    /** `handleDeleteProduct` (App.tsx:79-82). */
    method HandleDeleteProduct(productId: string)
      requires db.Valid()
      modifies this, db
      ensures db.Valid()
      ensures db.products == Store.WithoutProduct(old(db.products), productId)
      ensures db.transactions == old(db.transactions) && db.users == old(db.users)
      ensures db.appSettings == old(db.appSettings) && db.session == old(db.session)
      ensures products == db.products
      ensures transactions == old(transactions) && users == old(users) && appSettings == old(appSettings)
      ensures currentUser == old(currentUser) && currentView == old(currentView) && isLoading == old(isLoading)
    {
      db.DeleteProduct(productId);
      products := db.GetProducts();
    }

    /** `handleSaveUser` (App.tsx:84-88): the list is reloaded without passwords. */
    method HandleSaveUser(data: UserData, freshId: string)
      requires forall i :: 0 <= i < |db.users| ==> db.users[i].id != freshId
      requires db.Valid()
      modifies this, db
      ensures db.Valid()
      ensures db.users == Store.UsersAfterSave(old(db.users), data, freshId)
      ensures db.products == old(db.products) && db.transactions == old(db.transactions)
      ensures db.appSettings == old(db.appSettings) && db.session == old(db.session)
      ensures users == Store.PublicUsers(db.users)
      ensures products == old(products) && transactions == old(transactions) && appSettings == old(appSettings)
      ensures currentUser == old(currentUser) && currentView == old(currentView) && isLoading == old(isLoading)
    {
      var _ := db.SaveUser(data, freshId);
      users := db.GetUsers();
    }

    /** `handleDeleteUser` (App.tsx:90-94). */
    method HandleDeleteUser(userId: string)
      requires db.Valid()
      modifies this, db
      ensures db.Valid()
      ensures db.users == Store.WithoutUser(old(db.users), userId)
      ensures db.products == old(db.products) && db.transactions == old(db.transactions)
      ensures db.appSettings == old(db.appSettings) && db.session == old(db.session)
      ensures users == Store.PublicUsers(db.users)
      ensures products == old(products) && transactions == old(transactions) && appSettings == old(appSettings)
      ensures currentUser == old(currentUser) && currentView == old(currentView) && isLoading == old(isLoading)
    {
      db.DeleteUser(userId);
      users := db.GetUsers();
    }

    /** `handleSaveSettings` (App.tsx:96-100). */
    method HandleSaveSettings(settings: AppSettings)
      requires db.Valid()
      modifies this, db
      ensures db.Valid()
      ensures db.appSettings == settings && appSettings == Some(settings)
      ensures db.products == old(db.products) && db.transactions == old(db.transactions)
      ensures db.users == old(db.users) && db.session == old(db.session)
      ensures products == old(products) && transactions == old(transactions) && users == old(users)
      ensures currentUser == old(currentUser) && currentView == old(currentView) && isLoading == old(isLoading)
    {
      var newSettings := db.SaveAppSettings(settings);
      appSettings := Some(newSettings);
    }

    /** `handleLogin` (App.tsx:102-110): on success the user lands on a screen the
        role gate lets through. */
    method HandleLogin(username: string, password: string) returns (ok: bool)
      requires db.Valid()
      modifies this, db
      ensures db.Valid()
      ensures ok <==> Store.LoginResult(db.users, username, password).Some?
      ensures ok ==> currentUser == Store.LoginResult(db.users, username, password) &&
                     currentView == LandingView(currentUser.value.role) &&
                     db.session == currentUser
      ensures ok ==> RenderView(false, true, currentUser, currentView) == Show(currentView)
      ensures !ok ==> currentUser == old(currentUser) && currentView == old(currentView) &&
                      db.session == old(db.session)
      ensures db.products == old(db.products) && db.transactions == old(db.transactions)
      ensures db.users == old(db.users) && db.appSettings == old(db.appSettings)
      ensures products == old(products) && transactions == old(transactions) && users == old(users)
      ensures appSettings == old(appSettings) && isLoading == old(isLoading)
    {
      var user := db.Login(username, password);
      if user.Some? {
        currentUser := user;
        currentView := LandingView(user.value.role);
        LandingAllowed(user.value);
        ok := true;
      } else {
        ok := false;
      }
    }

    /** `handleLogout` (App.tsx:112-115): the view is kept, so the next user to log
        in is moved to a landing view. */
    method HandleLogout()
      requires db.Valid()
      modifies this, db
      ensures db.Valid()
      ensures currentUser == None && db.session == None && Page() == (if isLoading then StartupLoading else LoginPage)
      ensures db.products == old(db.products) && db.transactions == old(db.transactions)
      ensures db.users == old(db.users) && db.appSettings == old(db.appSettings)
      ensures currentView == old(currentView) && products == old(products) && transactions == old(transactions)
      ensures users == old(users) && appSettings == old(appSettings) && isLoading == old(isLoading)
    {
      db.Logout();
      currentUser := None;
    }

    /** Drawing the history (App.tsx:135-136, Transactions.tsx:33): the screen is
        handed the state's own array and sorts it in place, so the state itself
        is left newest first until the next reload. */
    method ShowHistory(time: string -> int)
      modifies this
      ensures TransactionsScreen.NewestFirst(transactions, time)
      ensures multiset(transactions) == multiset(old(transactions))
      ensures products == old(products) && users == old(users) && appSettings == old(appSettings)
      ensures currentUser == old(currentUser) && currentView == old(currentView) && isLoading == old(isLoading)
    {
      var ts := transactions;
      var a := new Transaction[|ts|](i requires 0 <= i < |ts| => ts[i]);
      assert a[..] == ts;
      TransactionsScreen.SortNewestFirst(a, time);
      transactions := a[..];
    }

    /** The history as evidently intended: a sorted copy is shown and the state
        keeps the store's order. */
    method ShowHistorySortingCopy(time: string -> int) returns (shown: seq<Transaction>)
      ensures TransactionsScreen.NewestFirst(shown, time)
      ensures multiset(shown) == multiset(transactions)
    {
      var ts := transactions;
      var a := new Transaction[|ts|](i requires 0 <= i < |ts| => ts[i]);
      assert a[..] == ts;
      TransactionsScreen.SortNewestFirst(a, time);
      shown := a[..];
    }

    /** `setCurrentView`, as the sidebar and the access-denied screen call it. */
    method SetView(view: View)
      modifies this
      ensures currentView == view
      ensures products == old(products) && transactions == old(transactions) && users == old(users)
      ensures appSettings == old(appSettings) && currentUser == old(currentUser) && isLoading == old(isLoading)
    {
      currentView := view;
    }
  }
}
