/** The records of the point-of-sale application (types.ts). Money and stock are
    unbounded integers: the application only ever stores integers, which it gets
    from `parseInt`. */
module Types {
  import opened Seqs

  datatype Result<T, E> = Ok(value: T) | Err(error: E)

  datatype UserRole = Admin | Kasir

  /** The six screens of the application, in the order the sidebar declares them. */
  datatype View = Dashboard | Pos | Inventory | Transactions | Users | Settings

  /** A product; `image` is the base64 data URL, '' when the product has none. */
  datatype Product = Product(id: string, name: string, sku: string,
                             sellingPrice: int, costPrice: int, stock: int,
                             image: string)

  /** A cart line: a snapshot of the product's name and selling price. */
  datatype CartItem = CartItem(productId: string, name: string, sellingPrice: int, quantity: int)

  datatype Transaction = Transaction(id: string, items: seq<CartItem>, total: int,
                                     profit: int, date: string)

  /** A transaction before the store gives it an id and a date. */
  datatype TransactionDraft = TransactionDraft(items: seq<CartItem>, total: int, profit: int)

  /** `password` is None where the record has no password field (the records the
      store hands out to screens). */
  datatype User = User(id: string, username: string, role: UserRole, password: Option<string>)

  datatype AppSettings = AppSettings(appName: string, logo: string)

  /** What the product form hands to `saveProduct`: every product field, and an id
      only when an existing product is edited. */
  datatype ProductData = ProductData(id: Option<string>, name: string, sku: string,
                                     sellingPrice: int, costPrice: int, stock: int,
                                     image: string)

  /** What the user form hands to `saveUser`. */
  datatype UserData = UserData(id: Option<string>, username: string, password: string,
                               role: UserRole)

  /** JavaScript truthiness of an optional id: absent and '' are both false. */
  predicate HasId(id: Option<string>)
  {
    id.Some? && id.value != ""
  }

  /** `products.find(p => p.id === id)` */
  function FindProduct(products: seq<Product>, id: string): (r: Option<Product>)
    ensures r.None? <==> forall i :: 0 <= i < |products| ==> products[i].id != id
    ensures r.Some? ==> r.value in products && r.value.id == id
    ensures r.Some? ==> exists k :: 0 <= k < |products| && products[k] == r.value &&
                                    forall i :: 0 <= i < k ==> products[i].id != id
  {
    Find(products, (p: Product) => p.id == id)
  }

  /** `products.findIndex(p => p.id === id)` */
  function ProductIndex(products: seq<Product>, id: string): (k: int)
    ensures -1 <= k < |products|
    ensures k == -1 <==> forall i :: 0 <= i < |products| ==> products[i].id != id
    ensures 0 <= k ==> products[k].id == id && forall i :: 0 <= i < k ==> products[i].id != id
  {
    FindIndex(products, (p: Product) => p.id == id)
  }

  /** `cart.find(item => item.productId === id)` */
  function FindLine(cart: seq<CartItem>, id: string): (r: Option<CartItem>)
    ensures r.None? <==> forall i :: 0 <= i < |cart| ==> cart[i].productId != id
    ensures r.Some? ==> r.value in cart && r.value.productId == id
    ensures r.Some? ==> exists k :: 0 <= k < |cart| && cart[k] == r.value &&
                                    forall i :: 0 <= i < k ==> cart[i].productId != id
  {
    Find(cart, (item: CartItem) => item.productId == id)
  }

  /** No two products share an id. */
  ghost predicate UniqueProductIds(products: seq<Product>)
  {
    forall i, j :: 0 <= i < j < |products| ==> products[i].id != products[j].id
  }

  /** No two users share an id. */
  ghost predicate UniqueUserIds(users: seq<User>)
  {
    forall i, j :: 0 <= i < j < |users| ==> users[i].id != users[j].id
  }

  /** No two cart lines are for the same product. */
  ghost predicate UniqueLines(cart: seq<CartItem>)
  {
    forall i, j :: 0 <= i < j < |cart| ==> cart[i].productId != cart[j].productId
  }

  /** With unique ids, the line at index k is the one `find` returns for its product. */
  lemma FindLineAt(cart: seq<CartItem>, k: nat)
    requires UniqueLines(cart) && k < |cart|
    ensures FindLine(cart, cart[k].productId) == Some(cart[k])
  {
  }

  lemma FindProductAt(products: seq<Product>, k: nat)
    requires UniqueProductIds(products) && k < |products|
    ensures FindProduct(products, products[k].id) == Some(products[k])
    ensures ProductIndex(products, products[k].id) == k
  {
  }

  /** A line's amount in the cart and in the transaction details: price times quantity. */
  function LineAmount(item: CartItem): int
  {
    item.sellingPrice * item.quantity
  }
}
