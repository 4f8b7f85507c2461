/** The point-of-sale screen (components/POS.tsx): the cart, its total, and the
    checkout that computes the transaction and the decremented product list. The
    cart is state of the screen; the product list is a property handed in by the
    application, so it is a parameter of every operation that reads it. */
module PosScreen {
  import opened Seqs
  import opened Types

  /** The alerts the screen raises instead of changing the cart. */
  datatype Alert = StockEmpty | ExceedsStock | CartEmpty

  /** What the screen hands to the application on checkout. */
  datatype CheckoutData = CheckoutData(transaction: TransactionDraft, updatedProducts: seq<Product>)

  /** The line a product gets when it first enters the cart. */
  function NewLine(product: Product): CartItem
  {
    CartItem(product.id, product.name, product.sellingPrice, 1)
  }

  predicate InCart(cart: seq<CartItem>, id: string)
  {
    exists i :: 0 <= i < |cart| && cart[i].productId == id
  }

  /** The lines for `id` get one more unit; the others are kept. */
  function Incremented(cart: seq<CartItem>, id: string): (r: seq<CartItem>)
    ensures |r| == |cart|
    ensures forall i :: 0 <= i < |cart| ==>
              r[i] == if cart[i].productId == id then cart[i].(quantity := cart[i].quantity + 1) else cart[i]
  {
    Map(cart, (item: CartItem) => if item.productId == id then item.(quantity := item.quantity + 1) else item)
  }

  /** The lines for `id` get quantity `quantity`; the others are kept. */
  function WithQuantity(cart: seq<CartItem>, id: string, quantity: int): (r: seq<CartItem>)
    ensures |r| == |cart|
    ensures forall i :: 0 <= i < |cart| ==>
              r[i] == if cart[i].productId == id then cart[i].(quantity := quantity) else cart[i]
  {
    Map(cart, (item: CartItem) => if item.productId == id then item.(quantity := quantity) else item)
  }

  /** The cart without the lines for `id`. */
  function WithoutLine(cart: seq<CartItem>, id: string): (r: seq<CartItem>)
    ensures !InCart(r, id)
    ensures forall i :: 0 <= i < |cart| && cart[i].productId != id ==> cart[i] in r
    ensures forall i :: 0 <= i < |r| ==> r[i] in cart
    ensures forall item :: multiset(r)[item] == if item.productId != id then multiset(cart)[item] else 0
    ensures IsSubsequence(r, cart)
  {
    FilterCounts(cart, (item: CartItem) => item.productId != id);
    Filter(cart, (item: CartItem) => item.productId != id)
  }

  /** addToCart (POS.tsx:15-31) on the cart value. */
  function CartAfterAdd(cart: seq<CartItem>, product: Product): Result<seq<CartItem>, Alert>
  {
    if product.stock <= 0 then Err(StockEmpty)
    else match FindLine(cart, product.id)
      case Some(line) =>
        if line.quantity < product.stock then Ok(Incremented(cart, product.id)) else Err(ExceedsStock)
      case None => Ok(cart + [NewLine(product)])
  }

  /** updateQuantity (POS.tsx:33-45) on the cart value. */
  function CartAfterQuantityUpdate(cart: seq<CartItem>, products: seq<Product>, productId: string,
                                   quantity: int): Result<seq<CartItem>, Alert>
  {
    var product := FindProduct(products, productId);
    if product.Some? && quantity > product.value.stock then Err(ExceedsStock)
    else if quantity <= 0 then Ok(WithoutLine(cart, productId))
    else Ok(WithQuantity(cart, productId, quantity))
  }

  /** `total` (POS.tsx:47) */
  function Total(cart: seq<CartItem>): int
  {
    SumOf(cart, LineAmount)
  }

  /** A line's margin against the current cost price; a line whose product is gone counts 0. */
  function LineProfit(products: seq<Product>, item: CartItem): int
  {
    match FindProduct(products, item.productId)
    case Some(p) => (item.sellingPrice - p.costPrice) * item.quantity
    case None => 0
  }

  /** The profit reduce of handleCheckout (POS.tsx:55-62). */
  function Profit(cart: seq<CartItem>, products: seq<Product>): int
  {
    SumOf(cart, ProfitOf(products))
  }

  function ProfitOf(products: seq<Product>): CartItem -> int
  {
    (item: CartItem) => LineProfit(products, item)
  }

  /** The quantity of `id` in the cart, as `cart.find` sees it. */
  function CartQuantity(cart: seq<CartItem>, id: string): int
  {
    match FindLine(cart, id)
    case Some(line) => line.quantity
    case None => 0
  }

  function AfterSale(p: Product, cart: seq<CartItem>): Product
  {
    match FindLine(cart, p.id)
    case Some(line) => p.(stock := p.stock - line.quantity)
    case None => p
  }

  /** `updatedProducts` (POS.tsx:70-76): same length, order and ids; each stock
      drops by the product's cart quantity and nothing else changes. */
  function UpdatedProducts(products: seq<Product>, cart: seq<CartItem>): (r: seq<Product>)
    ensures |r| == |products|
    ensures forall i :: 0 <= i < |products| ==>
              r[i] == products[i].(stock := products[i].stock - CartQuantity(cart, products[i].id))
    ensures forall i :: 0 <= i < |products| && !InCart(cart, products[i].id) ==> r[i] == products[i]
  {
    Map(products, (p: Product) => AfterSale(p, cart))
  }

  /** handleCheckout (POS.tsx:49-80) on values: nothing on an empty cart. */
  function CheckoutOf(cart: seq<CartItem>, products: seq<Product>): Result<CheckoutData, Alert>
  {
    if |cart| == 0 then Err(CartEmpty)
    else Ok(CheckoutData(TransactionDraft(cart, Total(cart), Profit(cart, products)),
                         UpdatedProducts(products, cart)))
  }

  // ---------------------------------------------------------------------------
  // The cart invariant: one line per product, every quantity at least 1 and at
  // most the stock of its product (when the product is known).

  predicate WithinStock(item: CartItem, products: seq<Product>)
  {
    match FindProduct(products, item.productId)
    case Some(p) => item.quantity <= p.stock
    case None => true
  }

  ghost predicate CartInvariant(cart: seq<CartItem>, products: seq<Product>)
  {
    && UniqueLines(cart)
    && forall i :: 0 <= i < |cart| ==> 1 <= cart[i].quantity && WithinStock(cart[i], products)
  }

  /** addToCart's three outcomes, stated per cart line. */
  lemma AddToCartOutcomes(cart: seq<CartItem>, product: Product)
    requires UniqueLines(cart)
    ensures product.stock <= 0 ==> CartAfterAdd(cart, product) == Err(StockEmpty)
    ensures product.stock > 0 && !InCart(cart, product.id) ==>
              CartAfterAdd(cart, product) == Ok(cart + [NewLine(product)])
    ensures forall k :: 0 <= k < |cart| && cart[k].productId == product.id && product.stock > 0 ==>
              CartAfterAdd(cart, product) ==
                if cart[k].quantity < product.stock
                then Ok(cart[k := cart[k].(quantity := cart[k].quantity + 1)])
                else Err(ExceedsStock)
  {
    forall k | 0 <= k < |cart| && cart[k].productId == product.id && product.stock > 0
      ensures CartAfterAdd(cart, product) ==
                if cart[k].quantity < product.stock
                then Ok(cart[k := cart[k].(quantity := cart[k].quantity + 1)])
                else Err(ExceedsStock)
    {
      FindLineAt(cart, k);
      assert Incremented(cart, product.id) == cart[k := cart[k].(quantity := cart[k].quantity + 1)];
    }
  }

  /** When the clicked product is the one `find` sees in `products`,
      addToCart keeps the cart invariant. */
  lemma AddToCartKeepsInvariant(cart: seq<CartItem>, products: seq<Product>, product: Product)
    requires CartInvariant(cart, products)
    requires FindProduct(products, product.id) == Some(product)
    ensures CartAfterAdd(cart, product).Ok? ==> CartInvariant(CartAfterAdd(cart, product).value, products)
  {
    AddToCartOutcomes(cart, product);
    if product.stock > 0 && !InCart(cart, product.id) {
      var c := cart + [NewLine(product)];
      assert forall i :: 0 <= i < |cart| ==> c[i] == cart[i];
    }
  }

  /** Each successful add puts one more unit at the line's snapshot price into the total. */
  lemma AddToCartTotal(cart: seq<CartItem>, product: Product)
    requires UniqueLines(cart)
    ensures CartAfterAdd(cart, product).Ok? ==>
              Total(CartAfterAdd(cart, product).value) ==
                Total(cart) + match FindLine(cart, product.id)
                              case Some(line) => line.sellingPrice
                              case None => product.sellingPrice
  {
    if CartAfterAdd(cart, product).Ok? {
      if InCart(cart, product.id) {
        var k :| 0 <= k < |cart| && cart[k].productId == product.id;
        FindLineAt(cart, k);
        IncrementTotal(cart, product, k);
      } else {
        AppendTotal(cart, product);
      }
    }
  }

  /** With one line per product, incrementing `id` updates exactly its line. */
  lemma IncrementedIsUpdate(cart: seq<CartItem>, k: nat)
    requires UniqueLines(cart) && k < |cart|
    ensures Incremented(cart, cart[k].productId) == cart[k := cart[k].(quantity := cart[k].quantity + 1)]
  {
  }

  lemma IncrementTotal(cart: seq<CartItem>, product: Product, k: nat)
    requires UniqueLines(cart) && k < |cart| && cart[k].productId == product.id
    requires 0 < product.stock && cart[k].quantity < product.stock
    ensures CartAfterAdd(cart, product).Ok?
    ensures Total(CartAfterAdd(cart, product).value) == Total(cart) + cart[k].sellingPrice
  {
    var line := cart[k];
    var bumped := line.(quantity := line.quantity + 1);
    FindLineAt(cart, k);
    IncrementedIsUpdate(cart, k);
    assert CartAfterAdd(cart, product) == Ok(cart[k := bumped]);
    SumOfUpdate(cart, k, bumped, LineAmount);
    assert LineAmount(bumped) == LineAmount(line) + line.sellingPrice by {
      assert line.sellingPrice * (line.quantity + 1) == line.sellingPrice * line.quantity + line.sellingPrice;
    }
  }

  lemma AppendTotal(cart: seq<CartItem>, product: Product)
    requires 0 < product.stock && !InCart(cart, product.id)
    ensures CartAfterAdd(cart, product) == Ok(cart + [NewLine(product)])
    ensures Total(cart + [NewLine(product)]) == Total(cart) + product.sellingPrice
  {
    SumOfAppend(cart, [NewLine(product)], LineAmount);
    assert SumOf([NewLine(product)], LineAmount) == product.sellingPrice by {
      assert [NewLine(product)][1..] == [];
    }
  }

  /** updateQuantity: rejected exactly when the product is known and the quantity
      exceeds its stock; otherwise a quantity of at most 0 removes the line and
      any other quantity is set on that line only. */
  lemma UpdateQuantityOutcomes(cart: seq<CartItem>, products: seq<Product>, id: string, quantity: int)
    ensures var r := CartAfterQuantityUpdate(cart, products, id, quantity);
            && (r.Err? <==> FindProduct(products, id).Some? && quantity > FindProduct(products, id).value.stock)
            && (r.Err? ==> r.error == ExceedsStock)
            && (r.Ok? && quantity <= 0 ==>
                  && !InCart(r.value, id)
                  && IsSubsequence(r.value, cart)
                  && forall i :: 0 <= i < |cart| && cart[i].productId != id ==> cart[i] in r.value)
            && (r.Ok? && quantity > 0 ==>
                  && |r.value| == |cart|
                  && forall i :: 0 <= i < |cart| ==>
                       r.value[i] == if cart[i].productId == id then cart[i].(quantity := quantity) else cart[i])
  {
  }

  /** updateQuantity keeps the cart invariant. */
  lemma UpdateQuantityKeepsInvariant(cart: seq<CartItem>, products: seq<Product>, id: string, quantity: int)
    requires CartInvariant(cart, products)
    ensures CartAfterQuantityUpdate(cart, products, id, quantity).Ok? ==>
              CartInvariant(CartAfterQuantityUpdate(cart, products, id, quantity).value, products)
  {
    var r := CartAfterQuantityUpdate(cart, products, id, quantity);
    if r.Ok? && quantity <= 0 {
      FilterUniqueLines(cart, (item: CartItem) => item.productId != id);
    }
  }

  lemma {:induction false} FilterUniqueLines(cart: seq<CartItem>, p: CartItem -> bool)
    requires UniqueLines(cart)
    ensures UniqueLines(Filter(cart, p))
  {
    if cart != [] {
      FilterUniqueLines(cart[1..], p);
      var rest := Filter(cart[1..], p);
      assert forall i :: 0 <= i < |rest| ==> rest[i] in cart[1..];
    }
  }

  /** What a line costs at the current cost price of its product. */
  function LineCost(products: seq<Product>, item: CartItem): int
  {
    match FindProduct(products, item.productId)
    case Some(p) => p.costPrice * item.quantity
    case None => 0
  }

  function CostOf(products: seq<Product>): CartItem -> int
  {
    (item: CartItem) => LineCost(products, item)
  }

  predicate IsKnown(products: seq<Product>, item: CartItem)
  {
    FindProduct(products, item.productId).Some?
  }

  /** The lines whose product still exists. */
  function KnownLines(cart: seq<CartItem>, products: seq<Product>): seq<CartItem>
  {
    Filter(cart, (item: CartItem) => IsKnown(products, item))
  }

  /** Profit is the revenue of the lines whose product exists minus what they cost. */
  lemma {:induction false} ProfitIsRevenueMinusCost(cart: seq<CartItem>, products: seq<Product>)
    ensures Profit(cart, products) ==
              Total(KnownLines(cart, products)) - SumOf(KnownLines(cart, products), CostOf(products))
  {
    if cart != [] {
      var item, rest := cart[0], cart[1..];
      ProfitIsRevenueMinusCost(rest, products);
      var head := if IsKnown(products, item) then [item] else [];
      var known := KnownLines(rest, products);
      assert KnownLines(cart, products) == head + known;
      SumOfAppend(head, known, LineAmount);
      SumOfAppend(head, known, CostOf(products));
      LineProfitSplit(products, item);
    }
  }

  /** One line's profit is its amount minus its cost, for a known product. */
  lemma LineProfitSplit(products: seq<Product>, item: CartItem)
    ensures var head := if IsKnown(products, item) then [item] else [];
            LineProfit(products, item) == SumOf(head, LineAmount) - SumOf(head, CostOf(products))
  {
    if IsKnown(products, item) {
      var p := FindProduct(products, item.productId).value;
      assert [item][1..] == [];
      assert (item.sellingPrice - p.costPrice) * item.quantity ==
             item.sellingPrice * item.quantity - p.costPrice * item.quantity;
    }
  }

  /** If every established stock is non-negative and the cart keeps its
      invariant, no product's stock is negative after checkout. */
  lemma CheckoutStockNonNegative(cart: seq<CartItem>, products: seq<Product>)
    requires CartInvariant(cart, products) && UniqueProductIds(products)
    requires forall i :: 0 <= i < |products| ==> products[i].stock >= 0
    ensures forall i :: 0 <= i < |products| ==> UpdatedProducts(products, cart)[i].stock >= 0
  {
    forall i | 0 <= i < |products|
      ensures UpdatedProducts(products, cart)[i].stock >= 0
    {
      FindProductAt(products, i);
      match FindLine(cart, products[i].id)
      case Some(line) =>
        assert WithinStock(line, products);
      case None =>
    }
  }

  /** The screen's state: the cart. */
  class PointOfSale {
    var cart: seq<CartItem>

    constructor ()
      ensures cart == []
    {
      cart := [];
    }

    method AddToCart(product: Product) returns (alert: Option<Alert>)
      modifies this
      ensures CartAfterAdd(old(cart), product).Ok? ==>
                cart == CartAfterAdd(old(cart), product).value && alert == None
      ensures CartAfterAdd(old(cart), product).Err? ==>
                cart == old(cart) && alert == Some(CartAfterAdd(old(cart), product).error)
    {
      var r := CartAfterAdd(cart, product);
      if r.Ok? {
        cart := r.value;
        alert := None;
      } else {
        alert := Some(r.error);
      }
    }

    method UpdateQuantity(products: seq<Product>, productId: string, quantity: int)
      returns (alert: Option<Alert>)
      modifies this
      ensures CartAfterQuantityUpdate(old(cart), products, productId, quantity).Ok? ==>
                cart == CartAfterQuantityUpdate(old(cart), products, productId, quantity).value &&
                alert == None
      ensures CartAfterQuantityUpdate(old(cart), products, productId, quantity).Err? ==>
                cart == old(cart) && alert == Some(ExceedsStock)
    {
      var r := CartAfterQuantityUpdate(cart, products, productId, quantity);
      if r.Ok? {
        cart := r.value;
        alert := None;
      } else {
        alert := Some(ExceedsStock);
      }
    }

    /** Returns what is handed to the application's `onCheckout`, if anything. */
    method HandleCheckout(products: seq<Product>) returns (emitted: Option<CheckoutData>, alert: Option<Alert>)
      modifies this
      ensures old(cart) == [] ==> emitted == None && alert == Some(CartEmpty) && cart == old(cart)
      ensures old(cart) != [] ==>
                && emitted == Some(CheckoutData(
                     TransactionDraft(old(cart), Total(old(cart)), Profit(old(cart), products)),
                     UpdatedProducts(products, old(cart))))
                && alert == None
                && cart == []
    {
      var r := CheckoutOf(cart, products);
      if r.Ok? {
        emitted, alert := Some(r.value), None;
        cart := [];
      } else {
        emitted, alert := None, Some(CartEmpty);
      }
    }
  }
}
