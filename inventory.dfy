/** The inventory screen (components/Inventory.tsx): the product form with its
    digits-only numeric fields, and the screen's modal and delete-confirmation state. */
module InventoryScreen {
  import opened Seqs
  import opened Types
  import Store

  // ---------------------------------------------------------------------------
  // The numeric fields

  predicate IsDigit(c: char)
  {
    '0' <= c <= '9'
  }

  /** `value.replace(/[^0-9]/g, '')` */
  function DigitsOnly(value: string): (r: string)
    ensures forall i :: 0 <= i < |r| ==> IsDigit(r[i])
    ensures forall i :: 0 <= i < |value| && IsDigit(value[i]) ==> value[i] in r
    ensures forall c :: multiset(r)[c] == if IsDigit(c) then multiset(value)[c] else 0
    ensures IsSubsequence(r, value)
  {
    FilterCounts(value, IsDigit);
    Filter(value, IsDigit)
  }

  /** Keeping the digits of a string of digits changes nothing. */
  lemma DigitsOnlyIdempotent(value: string)
    ensures DigitsOnly(DigitsOnly(value)) == DigitsOnly(value)
  {
    FilterKeepsAll(DigitsOnly(value), IsDigit);
  }

  function DigitValue(c: char): nat
    requires IsDigit(c)
  {
    (c as int) - ('0' as int)
  }

  predicate AllDigits(s: string)
  {
    forall i :: 0 <= i < |s| ==> IsDigit(s[i])
  }

  /** `parseInt(digits, 10)` on a string of digits, most significant first. */
  function DecimalValue(digits: string): nat
    requires AllDigits(digits)
  {
    if digits == [] then 0
    else 10 * DecimalValue(digits[..|digits| - 1]) + DigitValue(digits[|digits| - 1])
  }

  /** What `handleChange` stores for a numeric field (Inventory.tsx:30-33): the
      decimal value of the typed digits, 0 when there are none. */
  function ParseNumeric(value: string): nat
  {
    var digits := DigitsOnly(value);
    if digits == "" then 0 else DecimalValue(digits)
  }

  function DigitChar(d: nat): (c: char)
    requires d < 10
    ensures IsDigit(c) && DigitValue(c) == d
  {
    (('0' as int) + d) as char
  }

  /** A number as the input field shows it: its decimal digits without leading zeros. */
  function DecimalString(n: nat): (s: string)
    ensures AllDigits(s) && |s| > 0
  {
    if n < 10 then [DigitChar(n)] else DecimalString(n / 10) + [DigitChar(n % 10)]
  }

  /** A value shown in the field parses back to itself. */
  lemma {:induction false} ParseShownValue(n: nat)
    ensures ParseNumeric(DecimalString(n)) == n
  {
    var s := DecimalString(n);
    FilterKeepsAll(s, IsDigit);
    DecimalValueOfString(n);
  }

  lemma {:induction false} DecimalValueOfString(n: nat)
    ensures DecimalValue(DecimalString(n)) == n
  {
    var s := DecimalString(n);
    if n >= 10 {
      DecimalValueOfString(n / 10);
      assert s[..|s| - 1] == DecimalString(n / 10);
    }
  }

  /** Typing a digit at the end shifts the value one place and adds the digit. */
  lemma TypeDigit(value: string, c: char)
    requires IsDigit(c)
    ensures ParseNumeric(value + [c]) == 10 * ParseNumeric(value) + DigitValue(c)
  {
    FilterAppend(value, [c], IsDigit);
    assert Filter([c], IsDigit) == [c];
    var d := DigitsOnly(value);
    var digits := d + [c];
    assert DigitsOnly(value + [c]) == digits;
    assert digits[..|digits| - 1] == d;
    assert DecimalValue(digits) == 10 * DecimalValue(d) + DigitValue(c);
    assert ParseNumeric(value) == DecimalValue(d);
  }

  /** Typing anything else at the end leaves the value as it was. */
  lemma TypeNonDigit(value: string, c: char)
    requires !IsDigit(c)
    ensures ParseNumeric(value + [c]) == ParseNumeric(value)
  {
    FilterAppend(value, [c], IsDigit);
    assert DigitsOnly(value + [c]) == DigitsOnly(value);
  }

  // ---------------------------------------------------------------------------
  // The product form

  /** `formData` of ProductForm. */
  datatype FormData = FormData(name: string, sku: string, sellingPrice: int, costPrice: int,
                               stock: int, image: string)

  /** The inputs `handleChange` serves, by their `name` attribute. */
  datatype FormField = NameField | SkuField | SellingPriceField | CostPriceField | StockField

  predicate IsNumericField(field: FormField)
  {
    field == SellingPriceField || field == CostPriceField || field == StockField
  }

  /** The initial state (Inventory.tsx:18-25): the edited product's fields, or the
      empty form. `x || ''` and `x || 0` only replace '' and 0 by themselves. */
  function InitialFormData(product: Option<Product>): (f: FormData)
    ensures product.None? ==> f == FormData("", "", 0, 0, 0, "")
    ensures product.Some? ==>
              var p := product.value;
              f == FormData(p.name, p.sku, p.sellingPrice, p.costPrice, p.stock, p.image)
  {
    match product
    case None => FormData("", "", 0, 0, 0, "")
    case Some(p) => FormData(p.name, p.sku, p.sellingPrice, p.costPrice, p.stock, p.image)
  }

  /** `handleChange` (Inventory.tsx:27-41) on the form value. */
  function WithChange(form: FormData, field: FormField, value: string): (r: FormData)
    ensures field == NameField ==> r == form.(name := value)
    ensures field == SkuField ==> r == form.(sku := value)
    ensures field == SellingPriceField ==> r == form.(sellingPrice := ParseNumeric(value))
    ensures field == CostPriceField ==> r == form.(costPrice := ParseNumeric(value))
    ensures field == StockField ==> r == form.(stock := ParseNumeric(value))
  {
    if IsNumericField(field) then
      var n := ParseNumeric(value);
      match field
      case SellingPriceField => form.(sellingPrice := n)
      case CostPriceField => form.(costPrice := n)
      case StockField => form.(stock := n)
    else
      match field
      case NameField => form.(name := value)
      case SkuField => form.(sku := value)
  }

  /** A change never makes a number negative. */
  lemma ChangeKeepsNumbersNonNegative(form: FormData, field: FormField, value: string)
    requires form.sellingPrice >= 0 && form.costPrice >= 0 && form.stock >= 0
    ensures var r := WithChange(form, field, value);
            r.sellingPrice >= 0 && r.costPrice >= 0 && r.stock >= 0
  {
  }

  /** The object `handleSubmit` hands on (Inventory.tsx:56-59). */
  function Submitted(product: Option<Product>, form: FormData): (d: ProductData)
    ensures d.id == if product.Some? then Some(product.value.id) else None
    ensures d.name == form.name && d.sku == form.sku && d.image == form.image
    ensures d.sellingPrice == form.sellingPrice && d.costPrice == form.costPrice && d.stock == form.stock
  {
    ProductData(if product.Some? then Some(product.value.id) else None,
                form.name, form.sku, form.sellingPrice, form.costPrice, form.stock, form.image)
  }

  /** The form as an object with its state. */
  class ProductForm {
    const product: Option<Product>
    var formData: FormData

    constructor (product: Option<Product>)
      ensures this.product == product && formData == InitialFormData(product)
    {
      this.product := product;
      formData := InitialFormData(product);
    }

    method HandleChange(field: FormField, value: string)
      modifies this
      ensures formData == WithChange(old(formData), field, value)
    {
      if IsNumericField(field) {
        var numericValue := DigitsOnly(value);
        var n := if numericValue == "" then 0 else DecimalValue(numericValue);
        match field
        case SellingPriceField => formData := formData.(sellingPrice := n);
        case CostPriceField => formData := formData.(costPrice := n);
        case StockField => formData := formData.(stock := n);
      } else {
        match field
        case NameField => formData := formData.(name := value);
        case SkuField => formData := formData.(sku := value);
      }
    }

    method HandleSubmit() returns (data: ProductData)
      ensures data == Submitted(product, formData)
    {
      data := ProductData(if product.Some? then Some(product.value.id) else None,
                          formData.name, formData.sku, formData.sellingPrice,
                          formData.costPrice, formData.stock, formData.image);
    }
  }

  /** Opening the form on a stored product and saving it untouched leaves the
      table as it was (when the product's id is not '', which would send the save
      down the add path). */
  lemma UnchangedEditIsNoOp(products: seq<Product>, k: nat, freshId: string)
    requires UniqueProductIds(products) && k < |products| && products[k].id != ""
    ensures var p := products[k];
            Store.ProductsAfterSave(products, Submitted(Some(p), InitialFormData(Some(p))), freshId) == products
  {
    var p := products[k];
    var data := Submitted(Some(p), InitialFormData(Some(p)));
    var r := Store.ProductsAfterSave(products, data, freshId);
    forall i | 0 <= i < |products|
      ensures r[i] == products[i]
    {
      if products[i].id == p.id {
        assert i == k;
      }
    }
  }

  /** As written, `handleSubmit` always puts an `id` key into the object, holding
      `undefined` for a new product, and `saveProduct` then spreads it over the
      fresh id: the record pushed onto the table has no id, so a later
      `find(p => p.id === freshId)` finds nothing. The model's store gives it the
      fresh id instead (Store.ProductsAfterSave). */
  lemma NewProductLosesIdAsWritten(products: seq<Product>, freshId: string)
    requires Store.IsFreshProductId(products, freshId)
    ensures var ids := Store.StoredIdsAfterAddAsWritten(products, freshId, SubmittedIdKey(None));
            && ids[|products|] == None
            && Find(ids, (id: Option<string>) => id == Some(freshId)).None?
  {
    var ids := Store.StoredIdsAfterAddAsWritten(products, freshId, SubmittedIdKey(None));
    forall i | 0 <= i < |ids|
      ensures ids[i] != Some(freshId)
    {
      if i < |products| {
        assert ids[i] == Some(products[i].id);
      }
    }
  }

  /** The `id` key of the object `handleSubmit` builds: always present, with the
      edited product's id or `undefined` (None). */
  function SubmittedIdKey(product: Option<Product>): (key: Option<Option<string>>)
    ensures key.Some?
    ensures key.value == Submitted(product, InitialFormData(product)).id
  {
    Some(if product.Some? then Some(product.value.id) else None)
  }

  /** The corrected store: a product added from the form is found under its fresh
      id with exactly the submitted fields. */
  lemma NewProductFoundUnderFreshId(products: seq<Product>, form: FormData, freshId: string)
    requires UniqueProductIds(products) && Store.IsFreshProductId(products, freshId)
    ensures var data := Submitted(None, form);
            FindProduct(Store.ProductsAfterSave(products, data, freshId), freshId) ==
              Some(Store.ProductFromData(freshId, data))
  {
    Store.SaveProductThenFind(products, Submitted(None, form), freshId);
  }

  // ---------------------------------------------------------------------------
  // The screen

  /** The screen's state (Inventory.tsx:114-117). */
  class Inventory {
    var isModalOpen: bool
    var editingProduct: Option<Product>
    var isDeleteConfirmOpen: bool
    var productToDelete: Option<Product>

    constructor ()
      ensures !isModalOpen && editingProduct == None && !isDeleteConfirmOpen && productToDelete == None
    {
      isModalOpen, editingProduct := false, None;
      isDeleteConfirmOpen, productToDelete := false, None;
    }

    /** `handleAddProduct` (Inventory.tsx:119-122): an empty form. */
    method HandleAddProduct()
      modifies this
      ensures isModalOpen && editingProduct == None
      ensures isDeleteConfirmOpen == old(isDeleteConfirmOpen) && productToDelete == old(productToDelete)
    {
      editingProduct := None;
      isModalOpen := true;
    }

    /** `handleEditProduct` (Inventory.tsx:124-127). */
    method HandleEditProduct(product: Product)
      modifies this
      ensures isModalOpen && editingProduct == Some(product)
      ensures isDeleteConfirmOpen == old(isDeleteConfirmOpen) && productToDelete == old(productToDelete)
    {
      editingProduct := Some(product);
      isModalOpen := true;
    }

    /** `handleDeleteRequest` (Inventory.tsx:129-132). */
    method HandleDeleteRequest(product: Product)
      modifies this
      ensures isDeleteConfirmOpen && productToDelete == Some(product)
      ensures isModalOpen == old(isModalOpen) && editingProduct == old(editingProduct)
    {
      productToDelete := Some(product);
      isDeleteConfirmOpen := true;
    }

    /** `confirmDeleteProduct` (Inventory.tsx:134-140): returns the id handed to
        `onDelete`, if any; without a selection nothing happens. */
    method ConfirmDeleteProduct() returns (deleted: Option<string>)
      modifies this
      ensures old(productToDelete).Some? ==>
                deleted == Some(old(productToDelete).value.id) && !isDeleteConfirmOpen && productToDelete == None
      ensures old(productToDelete).None? ==>
                deleted == None && isDeleteConfirmOpen == old(isDeleteConfirmOpen) && productToDelete == None
      ensures isModalOpen == old(isModalOpen) && editingProduct == old(editingProduct)
    {
      if productToDelete.Some? {
        deleted := Some(productToDelete.value.id);
        isDeleteConfirmOpen := false;
        productToDelete := None;
      } else {
        deleted := None;
      }
    }

    /** The dialog's cancel button (Inventory.tsx:216-219). */
    method CancelDelete()
      modifies this
      ensures !isDeleteConfirmOpen && productToDelete == None
      ensures isModalOpen == old(isModalOpen) && editingProduct == old(editingProduct)
    {
      isDeleteConfirmOpen := false;
      productToDelete := None;
    }

    /** `handleSaveProduct` (Inventory.tsx:142-146): hands the data on unchanged,
        closes the form and forgets the edited product. */
    method HandleSaveProduct(productData: ProductData) returns (saved: ProductData)
      modifies this
      ensures saved == productData
      ensures !isModalOpen && editingProduct == None
      ensures isDeleteConfirmOpen == old(isDeleteConfirmOpen) && productToDelete == old(productToDelete)
    {
      saved := productData;
      isModalOpen := false;
      editingProduct := None;
    }
  }
}
