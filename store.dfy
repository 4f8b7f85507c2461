/** The in-memory data store (services/api.ts): four tables that the API functions
    read and replace. Every network delay is dropped, so each call is one step; the
    fresh ids and timestamps the source takes from the clock are parameters. */
module Store {
  import opened Seqs
  import opened Types

  const SeedProducts: seq<Product> := [
    Product("prod_1", "Kopi Susu Gula Aren", "KS-001", 18000, 10000, 50, ""),
    Product("prod_2", "Americano", "AM-001", 15000, 7000, 30, ""),
    Product("prod_3", "Croissant Cokelat", "CR-001", 22000, 12000, 25, ""),
    Product("prod_4", "Red Velvet Cake", "RV-001", 35000, 20000, 15, ""),
    Product("prod_5", "Matcha Latte", "ML-001", 25000, 15000, 40, ""),
    Product("prod_6", "Donat Gula", "DN-001", 10000, 4000, 60, "")
  ]

  const SeedUsers: seq<User> := [
    User("user_1", "admin", Admin, Some("admin123")),
    User("user_2", "kasir", Kasir, Some("kasir123"))
  ]

  const SeedSettings: AppSettings := AppSettings("KasirCerdas", "")

  // ---------------------------------------------------------------------------
  // Products

  /** `{ ...p, ...productData }` for a form that sends every product field. */
  function ProductFromData(id: string, data: ProductData): Product
  {
    Product(id, data.name, data.sku, data.sellingPrice, data.costPrice, data.stock, data.image)
  }

  predicate IsFreshProductId(products: seq<Product>, id: string)
  {
    forall i :: 0 <= i < |products| ==> products[i].id != id
  }

  /** The products table after saveProduct (api.ts:42-52): an edit overwrites the
      fields of the products with that id in place; an add appends one product
      under the fresh id. */
  function ProductsAfterSave(products: seq<Product>, data: ProductData, freshId: string): (r: seq<Product>)
    ensures HasId(data.id) ==> |r| == |products|
    ensures HasId(data.id) ==> forall i :: 0 <= i < |products| ==>
              r[i] == if products[i].id == data.id.value then ProductFromData(products[i].id, data)
                      else products[i]
    ensures !HasId(data.id) ==> r == products + [ProductFromData(freshId, data)]
  {
    if HasId(data.id) then
      Map(products, (p: Product) => if p.id == data.id.value then ProductFromData(p.id, data) else p)
    else
      products + [ProductFromData(freshId, data)]
  }

  /** The id of the record that `{ id: ..., ...productData }` builds for an added
      product (api.ts:46-49). `idKey` describes the caller's object: None when it
      has no `id` key, Some(v) when it has one with value v, None standing for
      `undefined`. In an object spread a later key wins even when its value is
      `undefined`, so the fresh id survives only when the key is missing. */
  function SpreadIdAsWritten(freshId: string, idKey: Option<Option<string>>): (id: Option<string>)
    ensures idKey.None? ==> id == Some(freshId)
    ensures idKey.Some? ==> id == idKey.value
  {
    match idKey
    case None => Some(freshId)
    case Some(v) => v
  }

  function IdOf(p: Product): Option<string> { Some(p.id) }

  /** The id column of the products table after an add as written (api.ts:46-50):
      the ids already stored, then the id the spread leaves on the pushed record,
      None standing for a record whose id is `undefined`. */
  function StoredIdsAfterAddAsWritten(products: seq<Product>, freshId: string, idKey: Option<Option<string>>): (ids: seq<Option<string>>)
    ensures |ids| == |products| + 1
    ensures forall i :: 0 <= i < |products| ==> ids[i] == Some(products[i].id)
    ensures ids[|products|] == SpreadIdAsWritten(freshId, idKey)
  {
    Map(products, IdOf) + [SpreadIdAsWritten(freshId, idKey)]
  }

  /** The id under which a save can be found again. */
  function SavedProductId(data: ProductData, freshId: string): string
  {
    if HasId(data.id) then data.id.value else freshId
  }

  /** Saving keeps ids unique, and the saved product is then found under its id
      with exactly the submitted fields, unless it edits an id that is not there. */
  lemma SaveProductThenFind(products: seq<Product>, data: ProductData, freshId: string)
    requires UniqueProductIds(products) && IsFreshProductId(products, freshId)
    ensures UniqueProductIds(ProductsAfterSave(products, data, freshId))
    ensures var id := SavedProductId(data, freshId);
            FindProduct(ProductsAfterSave(products, data, freshId), id) ==
              if HasId(data.id) && IsFreshProductId(products, id) then None
              else Some(ProductFromData(id, data))
  {
    var r := ProductsAfterSave(products, data, freshId);
    var id := SavedProductId(data, freshId);
    if HasId(data.id) {
      if !IsFreshProductId(products, id) {
        var k :| 0 <= k < |products| && products[k].id == id;
        FindProductAt(r, k);
      }
    } else {
      FindProductAt(r, |products|);
    }
  }

  /** deleteProduct's filter (api.ts:57). */
  function WithoutProduct(products: seq<Product>, id: string): (r: seq<Product>)
    ensures forall i :: 0 <= i < |r| ==> r[i].id != id && r[i] in products
    ensures forall i :: 0 <= i < |products| && products[i].id != id ==> products[i] in r
    ensures forall q :: multiset(r)[q] == if q.id != id then multiset(products)[q] else 0
    ensures IsSubsequence(r, products)
  {
    FilterCounts(products, (p: Product) => p.id != id);
    Filter(products, (p: Product) => p.id != id)
  }

  /** Deleting an id that is not in the table changes nothing. */
  lemma DeleteUnknownProduct(products: seq<Product>, id: string)
    requires IsFreshProductId(products, id)
    ensures WithoutProduct(products, id) == products
  {
    FilterKeepsAll(products, (p: Product) => p.id != id);
  }

  /** Deleting keeps the remaining ids unique. */
  lemma DeleteProductKeepsIdsUnique(products: seq<Product>, id: string)
    requires UniqueProductIds(products)
    ensures UniqueProductIds(WithoutProduct(products, id))
  {
    var key := (p: Product) => p.id;
    assert KeysDistinct(products, key);
    FilterKeepsKeysDistinct(products, key, (p: Product) => p.id != id);
    assert KeysDistinct(WithoutProduct(products, id), key);
  }

  /** Deleting a product just added under a fresh id restores the table. */
  lemma AddThenDeleteProduct(products: seq<Product>, data: ProductData, freshId: string)
    requires !HasId(data.id) && IsFreshProductId(products, freshId)
    ensures WithoutProduct(ProductsAfterSave(products, data, freshId), freshId) == products
  {
    var keep := (p: Product) => p.id != freshId;
    FilterAppend(products, [ProductFromData(freshId, data)], keep);
    FilterKeepsAll(products, keep);
    assert Filter([ProductFromData(freshId, data)], keep) == [];
  }

  /** One step of saveTransaction's stock loop (api.ts:79-82): the first stored
      product with `up`'s id takes `up`'s stock. */
  function SetStockOf(products: seq<Product>, up: Product): (r: seq<Product>)
    ensures |r| == |products|
    ensures (forall i :: 0 <= i < |products| ==> products[i].id != up.id) ==> r == products
    ensures forall k :: 0 <= k < |products| && products[k].id == up.id &&
                        (forall i :: 0 <= i < k ==> products[i].id != up.id) ==>
                          r == products[k := products[k].(stock := up.stock)]
  {
    var k := ProductIndex(products, up.id);
    if k == -1 then products else products[k := products[k].(stock := up.stock)]
  }

  /** The products table after the whole loop over `updated`. */
  function StockSynced(products: seq<Product>, updated: seq<Product>): (r: seq<Product>)
    ensures |r| == |products|
  {
    if updated == [] then products
    else SetStockOf(StockSynced(products, updated[..|updated| - 1]), updated[|updated| - 1])
  }

  /** The loop changes only stocks, keeps the table's length, order and ids, and
      leaves alone every product whose id is not among the updated ones. */
  lemma {:induction false} StockSyncedChangesOnlyStock(products: seq<Product>, updated: seq<Product>)
    ensures var r := StockSynced(products, updated);
            && |r| == |products|
            && (forall i :: 0 <= i < |products| ==> r[i] == products[i].(stock := r[i].stock))
            && (forall i :: 0 <= i < |products| && (forall j :: 0 <= j < |updated| ==> updated[j].id != products[i].id)
                  ==> r[i] == products[i])
  {
    if updated != [] {
      var prefix := updated[..|updated| - 1];
      StockSyncedChangesOnlyStock(products, prefix);
      assert forall j :: 0 <= j < |prefix| ==> prefix[j] == updated[j];
    }
  }

  /** The loop keeps every product's id, so ids stay unique. */
  lemma StockSyncedKeepsIds(products: seq<Product>, updated: seq<Product>)
    ensures var r := StockSynced(products, updated);
            forall i :: 0 <= i < |products| ==> r[i].id == products[i].id
    ensures UniqueProductIds(products) ==> UniqueProductIds(StockSynced(products, updated))
  {
    StockSyncedChangesOnlyStock(products, updated);
  }

  /** With unique ids, a stored product that some entry of `updated` names ends
      with the stock of the last entry naming it: later entries overwrite earlier. */
  lemma {:induction false} StockSyncedLastWins(products: seq<Product>, updated: seq<Product>, i: nat, j: nat)
    requires UniqueProductIds(products) && i < |products| && j < |updated|
    requires updated[j].id == products[i].id
    requires forall l :: j < l < |updated| ==> updated[l].id != products[i].id
    ensures StockSynced(products, updated)[i].stock == updated[j].stock
  {
    var n := |updated|;
    var prefix, last := updated[..n - 1], updated[n - 1];
    var before := StockSynced(products, prefix);
    assert StockSynced(products, updated) == SetStockOf(before, last);
    StockSyncedKeepsIds(products, prefix);
    if j == n - 1 {
      FindProductAt(before, i);
      assert SetStockOf(before, last) == before[i := before[i].(stock := last.stock)];
    } else {
      assert forall l :: j < l < |prefix| ==> prefix[l] == updated[l];
      StockSyncedLastWins(products, prefix, i, j);
      SetStockElsewhere(before, last, i);
    }
  }

  /** A loop step for another id leaves position `i` alone. */
  lemma SetStockElsewhere(products: seq<Product>, up: Product, i: nat)
    requires i < |products| && products[i].id != up.id
    ensures SetStockOf(products, up)[i] == products[i]
  {
  }

  /** When the list handed in is the stored table with new stocks, the loop stores
      exactly that list: the prefix already handled is updated, the rest is not. */
  lemma {:induction false} StockSyncedPrefix(products: seq<Product>, updated: seq<Product>, n: nat)
    requires UniqueProductIds(products) && |updated| == |products| && n <= |products|
    requires forall i :: 0 <= i < |products| ==> updated[i] == products[i].(stock := updated[i].stock)
    ensures StockSynced(products, updated[..n]) == updated[..n] + products[n..]
  {
    if n == 0 {
      assert updated[..0] == [];
    } else {
      StockSyncedPrefix(products, updated, n - 1);
      assert updated[..n][..n - 1] == updated[..n - 1];
      SnapshotStep(products, updated, n - 1);
    }
  }

  lemma SnapshotStep(products: seq<Product>, updated: seq<Product>, k: nat)
    requires UniqueProductIds(products) && |updated| == |products| && k < |products|
    requires forall i :: 0 <= i < |products| ==> updated[i] == products[i].(stock := updated[i].stock)
    ensures SetStockOf(updated[..k] + products[k..], updated[k]) == updated[..k + 1] + products[k + 1..]
  {
    var before := updated[..k] + products[k..];
    assert forall i :: 0 <= i < |before| ==> before[i].id == products[i].id;
    assert ProductIndex(before, updated[k].id) == k;
    assert before[k := before[k].(stock := updated[k].stock)] == updated[..k + 1] + products[k + 1..];
  }

  lemma StockSyncedSnapshot(products: seq<Product>, updated: seq<Product>)
    requires UniqueProductIds(products) && |updated| == |products|
    requires forall i :: 0 <= i < |products| ==> updated[i] == products[i].(stock := updated[i].stock)
    ensures StockSynced(products, updated) == updated
  {
    StockSyncedPrefix(products, updated, |products|);
    assert updated[..|products|] == updated;
  }

  // ---------------------------------------------------------------------------
  // Users

  function WithoutPassword(u: User): User
  {
    u.(password := None)
  }

  /** The users as the store hands them to screens (api.ts:111-118): same order,
      same fields, no passwords. */
  function PublicUsers(users: seq<User>): (r: seq<User>)
    ensures |r| == |users|
    ensures forall i :: 0 <= i < |users| ==>
              r[i].password == None && r[i] == users[i].(password := None)
  {
    Map(users, WithoutPassword)
  }

  predicate Credentials(u: User, username: string, password: string)
  {
    u.username == username && u.password == Some(password)
  }

  /** login's lookup (api.ts:90-95): the first user with that username and
      password, handed out without its password. */
  function LoginResult(users: seq<User>, username: string, password: string): (r: Option<User>)
    ensures r.Some? <==> exists i :: 0 <= i < |users| && Credentials(users[i], username, password)
    ensures r.Some? ==> r.value.password == None
    ensures r.Some? ==>
              exists k :: && 0 <= k < |users| && Credentials(users[k], username, password)
                          && r.value == WithoutPassword(users[k])
                          && forall i :: 0 <= i < k ==> !Credentials(users[i], username, password)
  {
    match Find(users, (u: User) => Credentials(u, username, password))
    case Some(u) => Some(WithoutPassword(u))
    case None => None
  }

  /** An edited user (api.ts:124-130): new username and role; the password is
      replaced only by a non-empty one. */
  function EditedUser(u: User, data: UserData): User
  {
    var updated := u.(username := data.username, role := data.role);
    if data.password != "" then updated.(password := Some(data.password)) else updated
  }

  /** The users table after saveUser (api.ts:122-143). */
  function UsersAfterSave(users: seq<User>, data: UserData, freshId: string): (r: seq<User>)
    ensures HasId(data.id) ==> |r| == |users|
    ensures HasId(data.id) ==> forall i :: 0 <= i < |users| ==>
              r[i] == if users[i].id == data.id.value then EditedUser(users[i], data) else users[i]
    ensures !HasId(data.id) ==>
              r == users + [User(freshId, data.username, data.role, Some(data.password))]
  {
    if HasId(data.id) then
      Map(users, (u: User) => if u.id == data.id.value then EditedUser(u, data) else u)
    else
      users + [User(freshId, data.username, data.role, Some(data.password))]
  }

  /** Saving keeps user ids unique: an edit keeps every id and an add uses a fresh one. */
  lemma SaveUserKeepsIdsUnique(users: seq<User>, data: UserData, freshId: string)
    requires UniqueUserIds(users) && forall i :: 0 <= i < |users| ==> users[i].id != freshId
    ensures UniqueUserIds(UsersAfterSave(users, data, freshId))
  {
    var r := UsersAfterSave(users, data, freshId);
    if HasId(data.id) {
      assert forall i :: 0 <= i < |users| ==> r[i].id == users[i].id;
    }
  }

  /** An edit keeps the id of every user and the password of every user it does
      not give a new one; username and role become the submitted ones. */
  lemma EditUserFields(users: seq<User>, data: UserData, freshId: string, k: nat)
    requires HasId(data.id) && k < |users|
    ensures var r := UsersAfterSave(users, data, freshId);
            && r[k].id == users[k].id
            && (users[k].id == data.id.value ==>
                  r[k].username == data.username && r[k].role == data.role &&
                  r[k].password == (if data.password == "" then users[k].password else Some(data.password)))
            && (users[k].id != data.id.value ==> r[k] == users[k])
  {
  }

  /** deleteUser's filter (api.ts:148). */
  function WithoutUser(users: seq<User>, id: string): (r: seq<User>)
    ensures forall i :: 0 <= i < |r| ==> r[i].id != id && r[i] in users
    ensures forall i :: 0 <= i < |users| && users[i].id != id ==> users[i] in r
    ensures forall u :: multiset(r)[u] == if u.id != id then multiset(users)[u] else 0
    ensures IsSubsequence(r, users)
  {
    FilterCounts(users, (u: User) => u.id != id);
    Filter(users, (u: User) => u.id != id)
  }

  /** Deleting keeps the remaining user ids unique. */
  lemma DeleteUserKeepsIdsUnique(users: seq<User>, id: string)
    requires UniqueUserIds(users)
    ensures UniqueUserIds(WithoutUser(users, id))
  {
    var key := (u: User) => u.id;
    assert KeysDistinct(users, key);
    FilterKeepsKeysDistinct(users, key, (u: User) => u.id != id);
    assert KeysDistinct(WithoutUser(users, id), key);
  }

  lemma DeleteUnknownUser(users: seq<User>, id: string)
    requires forall i :: 0 <= i < |users| ==> users[i].id != id
    ensures WithoutUser(users, id) == users
  {
    FilterKeepsAll(users, (u: User) => u.id != id);
  }

  /** A user added with a password can log in with it. */
  lemma AddedUserCanLogIn(users: seq<User>, data: UserData, freshId: string)
    requires !HasId(data.id)
    ensures LoginResult(UsersAfterSave(users, data, freshId), data.username, data.password).Some?
  {
    var r := UsersAfterSave(users, data, freshId);
    assert Credentials(r[|users|], data.username, data.password);
  }

  // ---------------------------------------------------------------------------
  // The store

  class Db {
    var products: seq<Product>
    var transactions: seq<Transaction>
    var users: seq<User>
    var appSettings: AppSettings
    /** The logged-in user kept in the browser's session storage, without a password. */
    var session: Option<User>

    /** The store's data invariant: identifiers name one record each. */
    ghost predicate Valid()
      reads this
    {
      UniqueProductIds(products) && UniqueUserIds(users)
    }

    /** The seed data the store starts with on every page load; the session
        storage outlives the page, so it is whatever the last page left. */
    constructor (storedSession: Option<User>)
      ensures Valid()
      ensures products == SeedProducts && transactions == [] && users == SeedUsers
      ensures appSettings == SeedSettings && session == storedSession
    {
      session := storedSession;
      products := SeedProducts;
      transactions := [];
      users := SeedUsers;
      appSettings := SeedSettings;
    }

    method GetProducts() returns (r: seq<Product>)
      ensures r == products
    {
      r := products;
    }

    /** Returns the stored product; an edit of an unknown id finds nothing. */
    method SaveProduct(data: ProductData, freshId: string) returns (saved: Option<Product>)
      requires IsFreshProductId(products, freshId)
      requires Valid()
      modifies this
      ensures Valid()
      ensures products == ProductsAfterSave(old(products), data, freshId)
      ensures HasId(data.id) ==> saved == FindProduct(products, data.id.value)
      ensures !HasId(data.id) ==> saved == Some(ProductFromData(freshId, data))
      ensures transactions == old(transactions) && users == old(users) && appSettings == old(appSettings)
      ensures session == old(session)
    {
      SaveProductThenFind(products, data, freshId);
      products := ProductsAfterSave(products, data, freshId);
      if HasId(data.id) {
        saved := FindProduct(products, data.id.value);
      } else {
        saved := Some(ProductFromData(freshId, data));
      }
    }

    method DeleteProduct(productId: string)
      requires Valid()
      modifies this
      ensures Valid()
      ensures products == WithoutProduct(old(products), productId)
      ensures transactions == old(transactions) && users == old(users) && appSettings == old(appSettings)
      ensures session == old(session)
    {
      DeleteProductKeepsIdsUnique(products, productId);
      products := WithoutProduct(products, productId);
    }

    method GetTransactions() returns (r: seq<Transaction>)
      ensures r == transactions
    {
      r := transactions;
    }

    /** Appends the transaction, then copies the stock of every updated product
        onto the stored product with the same id; unknown ids are skipped. */
    method SaveTransaction(draft: TransactionDraft, updatedProducts: seq<Product>,
                           freshId: string, date: string) returns (t: Transaction)
      requires forall i :: 0 <= i < |transactions| ==> transactions[i].id != freshId
      requires Valid()
      modifies this
      ensures Valid()
      ensures t == Transaction(freshId, draft.items, draft.total, draft.profit, date)
      ensures transactions == old(transactions) + [t]
      ensures products == StockSynced(old(products), updatedProducts)
      ensures users == old(users) && appSettings == old(appSettings) && session == old(session)
    {
      t := Transaction(freshId, draft.items, draft.total, draft.profit, date);
      transactions := transactions + [t];
      var i := 0;
      while i < |updatedProducts|
        invariant 0 <= i <= |updatedProducts|
        invariant products == StockSynced(old(products), updatedProducts[..i])
        invariant transactions == old(transactions) + [t]
        invariant users == old(users) && appSettings == old(appSettings) && session == old(session)
      {
        var up := updatedProducts[i];
        ghost var before := products;
        var productIndex := ProductIndex(products, up.id);
        if productIndex != -1 {
          products := products[productIndex := products[productIndex].(stock := up.stock)];
        }
        assert products == SetStockOf(before, up);
        assert updatedProducts[..i + 1][..i] == updatedProducts[..i];
        i := i + 1;
      }
      assert updatedProducts[..i] == updatedProducts;
      StockSyncedKeepsIds(old(products), updatedProducts);
    }

    /** On success the user, without password, is also kept as the session. */
    method Login(username: string, password: string) returns (user: Option<User>)
      requires Valid()
      modifies this
      ensures Valid()
      ensures user == LoginResult(users, username, password)
      ensures session == if user.Some? then user else old(session)
      ensures products == old(products) && transactions == old(transactions)
      ensures users == old(users) && appSettings == old(appSettings)
    {
      user := LoginResult(users, username, password);
      if user.Some? {
        session := user;
      }
    }

    method Logout()
      requires Valid()
      modifies this
      ensures Valid()
      ensures session == None
      ensures products == old(products) && transactions == old(transactions)
      ensures users == old(users) && appSettings == old(appSettings)
    {
      session := None;
    }

    method GetCurrentUser() returns (r: Option<User>)
      ensures r == session
    {
      r := session;
    }

    /** The users table without passwords, in stored order (api.ts:111-118). */
    method GetUsers() returns (r: seq<User>)
      ensures |r| == |users|
      ensures forall i :: 0 <= i < |users| ==> r[i] == WithoutPassword(users[i])
      ensures r == PublicUsers(users)
    {
      r := PublicUsers(users);
    }

    /** Returns the stored user, password included; an edit of an unknown id finds nothing. */
    method SaveUser(data: UserData, freshId: string) returns (saved: Option<User>)
      requires forall i :: 0 <= i < |users| ==> users[i].id != freshId
      requires Valid()
      modifies this
      ensures Valid()
      ensures users == UsersAfterSave(old(users), data, freshId)
      ensures HasId(data.id) ==> saved == Find(users, (u: User) => u.id == data.id.value)
      ensures !HasId(data.id) ==> saved == Some(users[|users| - 1])
      ensures products == old(products) && transactions == old(transactions) && appSettings == old(appSettings)
      ensures session == old(session)
    {
      SaveUserKeepsIdsUnique(users, data, freshId);
      users := UsersAfterSave(users, data, freshId);
      if HasId(data.id) {
        saved := Find(users, (u: User) => u.id == data.id.value);
      } else {
        saved := Some(users[|users| - 1]);
      }
    }

    method DeleteUser(userId: string)
      requires Valid()
      modifies this
      ensures Valid()
      ensures users == WithoutUser(old(users), userId)
      ensures products == old(products) && transactions == old(transactions) && appSettings == old(appSettings)
      ensures session == old(session)
    {
      DeleteUserKeepsIdsUnique(users, userId);
      users := WithoutUser(users, userId);
    }

    method GetAppSettings() returns (r: AppSettings)
      ensures r == appSettings
    {
      r := appSettings;
    }

    method SaveAppSettings(settings: AppSettings) returns (r: AppSettings)
      requires Valid()
      modifies this
      ensures Valid()
      ensures appSettings == settings && r == settings
      ensures products == old(products) && transactions == old(transactions) && users == old(users)
      ensures session == old(session)
    {
      appSettings := settings;
      r := appSettings;
    }
  }
}
